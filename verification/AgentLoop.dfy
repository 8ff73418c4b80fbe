/** The agent tool loop as an object that is updated in place. */
module AgentLoop {
  // `core` is the live part of the object. The transitions on it, and the exact result of a round and of a whole run,
  // are specified in LoopState; the methods here reach the same results step by step, and keep what every checkpoint
  // promises.

  import opened Wrappers
  import opened ProtocolHistory
  import opened LoopState

  ghost predicate SavedAreGood(saved: seq<Checkpoint>, cores: seq<Core>, orderly: bool, iteration: nat) {
    && |saved| == |cores|
    && (saved != [] ==>
          var k := |saved| - 1;
          && saved[k] == Saved(cores[k]) && GoodCheckpoint(cores[k], orderly) && saved[k].state.iteration <= iteration
          && SavedAreGood(saved[..k], cores[..k], orderly, iteration))
  }

  lemma {:induction false} EachSavedIsGood(saved: seq<Checkpoint>, cores: seq<Core>, orderly: bool, iteration: nat, i: nat)
    requires SavedAreGood(saved, cores, orderly, iteration) && i < |saved|
    ensures saved[i] == Saved(cores[i]) && GoodCheckpoint(cores[i], orderly) && saved[i].state.iteration <= iteration
  {
    if i < |saved| - 1 {
      EachSavedIsGood(saved[..|saved| - 1], cores[..|saved| - 1], orderly, iteration, i);
    }
  }

  lemma SavedIterations(saved: seq<Checkpoint>, cores: seq<Core>, orderly: bool, iteration: nat)
    requires SavedAreGood(saved, cores, orderly, iteration)
    ensures forall i :: 0 <= i < |saved| ==> saved[i].state.iteration <= iteration
  {
    forall i: nat | i < |saved| ensures saved[i].state.iteration <= iteration {
      EachSavedIsGood(saved, cores, orderly, iteration, i);
    }
  }

  lemma {:induction false} LaterIterationKeepsSaved(saved: seq<Checkpoint>, cores: seq<Core>, orderly: bool,
                                                    iteration: nat, later: nat)
    requires SavedAreGood(saved, cores, orderly, iteration) && iteration <= later
    ensures SavedAreGood(saved, cores, orderly, later)
  {
    if saved != [] {
      LaterIterationKeepsSaved(saved[..|saved| - 1], cores[..|saved| - 1], orderly, iteration, later);
    }
  }

  lemma PushSaved(saved: seq<Checkpoint>, cores: seq<Core>, orderly: bool, iteration: nat, c: Core)
    requires SavedAreGood(saved, cores, orderly, iteration)
    requires GoodCheckpoint(c, orderly) && c.state.iteration <= iteration
    ensures SavedAreGood(saved + [Saved(c)], cores + [c], orderly, iteration)
  {
    assert (saved + [Saved(c)])[..|saved|] == saved && (cores + [c])[..|cores|] == cores;
  }

  /** The map a resumed run rebuilds from the saved test results is the map the live run kept. */
  method RebuildOutcomes(results: seq<TestResult>) returns (outcomes: map<string, bool>)
    ensures outcomes == LatestOutcomes(results)
  {
    outcomes := map[];
    for n := 0 to |results|
      invariant outcomes == LatestOutcomes(results[..n])
    {
      assert results[..n + 1][..n] == results[..n];
      outcomes := outcomes[results[n].name := results[n].passed];
    }
    assert results[..|results|] == results;
  }

  class Agent {
    var core: Core
    var hasRun: bool
    var batchActive: bool
    var pendingMarker: Option<nat>        // iteration recorded by the pending tool-batch journal
    var saved: seq<Checkpoint>            // complete checkpoints of this execution, oldest first
    ghost var savedCores: seq<Core>
    ghost var orderly: bool

    constructor (maxIterations: nat, maxToolCalls: nat, maxTestRuns: nat)
      ensures SameLimits(core.state, AgentState(0, maxIterations, 0, maxToolCalls, 0, maxTestRuns, Executing, [], [], []))
      ensures AtBoundary() && !hasRun && saved == [] && pendingMarker == None
    {
      core := InitialCore(maxIterations, maxToolCalls, maxTestRuns, []);
      hasRun, batchActive, pendingMarker, saved := false, false, None, [];
      savedCores, orderly := [], true;
    }

    ghost predicate Valid()
      reads this
    {
      Live(core) && SavedAreGood(saved, savedCores, orderly, core.state.iteration)
    }

    ghost predicate AtBoundary()
      reads this
    {
      Valid() && !batchActive && Boundary(core, orderly)
    }

    function LastComplete(): Option<Checkpoint>
      reads this
    {
      if saved == [] then None else Some(saved[|saved| - 1])
    }

    // ----- checkpoints -----------------------------------------------------------------------

    /** Writes a checkpoint and removes the pending journal; refuses while a tool batch is open. */
    method CheckpointBoundary() returns (ok: bool)
      requires Valid()
      requires !batchActive ==> GoodCheckpoint(core, orderly)
      modifies this`saved, this`savedCores, this`pendingMarker
      ensures Valid()
      ensures ok == !batchActive
      ensures ok && hasRun ==> saved == old(saved) + [Saved(core)] && pendingMarker == None
      ensures !ok || !hasRun ==> saved == old(saved) && pendingMarker == old(pendingMarker)
    {
      if batchActive {
        return false;
      }
      if hasRun {
        PushSaved(saved, savedCores, orderly, core.state.iteration, core);
        saved, savedCores := saved + [Checkpoint(core.state, core.metrics, core.notes)], savedCores + [core];
        pendingMarker := None;
      }
      return true;
    }

    /** Quota pause: keeps the last complete checkpoint if a batch is open, otherwise saves a new one. */
    method PauseForQuota() returns (path: Option<Checkpoint>)
      requires Valid()
      requires !batchActive ==> AtBoundary()
      modifies this`saved, this`savedCores, this`pendingMarker
      ensures Valid()
      ensures batchActive ==> path == LastComplete() && saved == old(saved) && pendingMarker == old(pendingMarker)
      ensures !batchActive && hasRun ==>
                path == Some(Saved(core)) && saved == old(saved) + [Saved(core)] && pendingMarker == None
      ensures !batchActive && !hasRun ==> path == None && saved == old(saved)
    {
      if batchActive {
        path := LastComplete();
      } else {
        var _ := CheckpointBoundary();
        path := if hasRun then LastComplete() else None;
      }
    }

    // ----- one tool batch --------------------------------------------------------------------

    /** Counts one executed call and, for a test run, records its result and the overall verdict. */
    method CountCall(tc: ToolCall, success: bool)
      modifies this`core
      ensures core == old(core).(
                metrics := old(core).metrics.(toolCalls := old(core).metrics.toolCalls + 1),
                state := Counted(old(core).state, tc, success),
                outcomes := if tc.name == RUN_TESTS then old(core).outcomes[tc.target := success] else old(core).outcomes,
                testsPassed := if tc.name == RUN_TESTS then AllPassed(core.outcomes) else old(core).testsPassed)
    {
      core := core.(metrics := core.metrics.(toolCalls := core.metrics.toolCalls + 1),
                    state := core.state.(toolCallsUsed := core.state.toolCallsUsed + 1));
      if tc.name == RUN_TESTS {
        core := core.(state := core.state.(phase := Verifying, testRuns := core.state.testRuns + 1),
                      outcomes := core.outcomes[tc.target := success]);
        core := core.(testsPassed := forall k :: k in core.outcomes ==> core.outcomes[k]);
        if !success {
          core := core.(state := core.state.(phase := Reflecting));
        }
        core := core.(state := core.state.(
                        testResults := core.state.testResults + [TestResult(tc.target, success)]));
      }
    }

    /** Has this exact call just failed again, identically to the immediately preceding one? */
    method TrackStreak(tc: ToolCall, success: bool)
      modifies this`core
      ensures core == old(core).(notes := Observe(old(core).notes, tc, success))
    {
      var notes := core.notes;
      if !success && notes.lastFailing == Some(Signature(tc)) {
        notes := notes.(repeated := notes.repeated + 1);
      } else if !success {
        notes := notes.(repeated := 1, warned := false);
      } else {
        notes := notes.(repeated := 0, warned := false);
      }
      core := core.(notes := notes.(lastFailing := if success then None else Some(Signature(tc))));
    }

    /** Appends the result to the conversation, with the recovery note and the nudge that may surround it. */
    method AppendResult(tc: ToolCall, success: bool, tag: Tag, progress: Progress)
      modifies this`core
      ensures var notes := AfterCall(old(core).notes, tc, success);
              core == old(core).(
                notes := notes,
                nudges := NudgesAfter(old(core).nudges, old(core).notes, tc, success, |old(core).log|),
                state := old(core).state.(
                  messages := old(core).state.messages + ResultMessages(old(core).notes, tc, success, tag, progress),
                  phase := if notes.repeated >= STAGNATION_ABORT then Failed else old(core).state.phase))
    {
      TrackStreak(tc, success);
      var messages := core.state.messages;
      if progress == Recover {
        messages := messages + [Note(Untagged)];
      }
      messages := messages + [Reply(tag, tc.id)];
      if core.notes.repeated >= STAGNATION_ABORT {
        core := core.(state := core.state.(phase := Failed));
      } else if core.notes.repeated >= STAGNATION_WARNING && !core.notes.warned {
        core := core.(notes := core.notes.(warned := true), nudges := core.nudges + {|core.log|});
        messages := messages + [Note(Untagged)];
      }
      core := core.(state := core.state.(messages := messages));
    }

    /** Consumes one tool result of the open batch. */
    method ConsumeResult(tc: ToolCall, success: bool, tag: Tag, progress: Progress)
      requires core.testsPassed == AllPassed(core.outcomes)
      modifies this`core
      ensures core == Consumed(old(core), tc, success, tag, progress)
    {
      core := core.(log := core.log + [CallOutcome(tc, success)]);
      CountCall(tc, success);
      AppendResult(tc, success, tag, progress);
    }

    /** Consumes the results of the open batch in call order, until one call cuts it short. */
    method RunOpenBatch(calls: seq<ToolCall>, r: Round) returns (end: BatchEnd)
      requires Running(core) && Admitted(core, calls, 0)
      requires orderly ==> Orderly(r) && BatchHistory(core.state.messages, calls)
      modifies this`core
      ensures (core, end) == RunCalls(old(core), calls, r.tools, 0, false)
    {
      var noProgress := false;
      assert calls[0..] == calls;
      for k := 0 to |calls|
        invariant Running(core) && Admitted(core, calls, k)
        invariant orderly ==> BatchHistory(core.state.messages, calls[k..])
        invariant RunCalls(core, calls, r.tools, k, noProgress) == RunCalls(old(core), calls, r.tools, 0, false)
      {
        match r.tools(k)
        case QuotaDuringTool => return QuotaInTool;
        case BlockedDuringTool => return BlockedInTool;
        case Ran(success, tag, progress) =>
          ConsumedKeepsBatch(core, calls, r, k, orderly);
          ConsumeResult(calls[k], success, tag, progress);
          if core.notes.repeated >= STAGNATION_ABORT {
            return Aborted;
          }
          noProgress := noProgress || progress == Stop;
      }
      return Finished(noProgress);
    }

    /** What the open batch keeps, whatever its calls do. */
    method ExecuteCalls(calls: seq<ToolCall>, r: Round) returns (end: BatchEnd)
      requires Running(core) && Admitted(core, calls, 0)
      requires orderly ==> Orderly(r) && BatchHistory(core.state.messages, calls)
      modifies this`core
      ensures (core, end) == RunCalls(old(core), calls, r.tools, 0, false)
      ensures Live(core) && SameRound(old(core), core) && old(core).log <= core.log
      ensures end.Finished? ==> Running(core) && |core.log| == |old(core).log| + |calls|
      ensures end.Finished? && orderly ==> ClosedHistory(core.state.messages)
    {
      assert calls[0..] == calls;
      RunCallsKeeps(core, calls, r, 0, false, orderly);
      end := RunOpenBatch(calls, r);
    }

    /** Executes one admitted batch. Every call is consumed once, in order, unless the batch is cut short; only a
        fully consumed batch is checkpointed. */
    method RunBatch(calls: seq<ToolCall>, r: Round, messages: seq<Message>) returns (end: BatchEnd)
      requires Valid() && !batchActive && Running(core) && CountersAgree(core.state, core.metrics, core.notes)
      requires DistinctIds(calls) && Admitted(core, calls, 0) && r.generation.Generated?
      requires orderly ==> Orderly(r) && ClosedHistory(messages)
      modifies this`core, this`batchActive, this`pendingMarker, this`saved, this`savedCores
      ensures (core, end) == BatchOutcome(old(core), calls, r, r.generation.response.tag, messages)
      ensures Valid()
      ensures core.state.iteration == old(core).state.iteration && SameLimits(core.state, old(core).state)
      ensures old(core).log <= core.log
      ensures end.Finished? ==> AtBoundary() && |core.log| == |old(core).log| + |calls|
      ensures end.Finished? ==> saved == old(saved) + if hasRun then [Saved(core)] else []
      ensures !end.Finished? ==> batchActive && saved == old(saved) && savedCores == old(savedCores)
      ensures !end.Finished? && hasRun ==> pendingMarker == Some(core.state.iteration)
    {
      hide RunCalls, Admitted, BatchHistory, ClosedHistory, SavedAreGood, Orderly, TestsIn, LatestOutcomes, AllPassed,
           StreakTracked, WithinBudgets;
      OpenTurnAdmits(core, messages, calls, r, orderly);
      core := core.(state := core.state.(messages := messages + [Assistant(r.generation.response.tag, calls)]));
      core := core.(state := core.state.(toolCalls := core.state.toolCalls + calls));
      ghost var start := core;
      batchActive := true;
      if hasRun {
        pendingMarker := Some(core.state.iteration);
      }
      end := ExecuteCalls(calls, r);
      if end.Finished? {
        ClosedBatchIsBoundary(start, calls, core, orderly);
        batchActive := false;
        var _ := CheckpointBoundary();
      }
    }

    // ----- one round -------------------------------------------------------------------------

    /** A summary is one more call of the model. */
    method BookCompaction(summarized: bool)
      modifies this`core
      ensures core == AfterCompaction(old(core), summarized)
    {
      if summarized {
        core := core.(metrics := core.metrics.(modelCalls := core.metrics.modelCalls + 1),
                      notes := core.notes.(summaryCalls := core.notes.summaryCalls + 1));
      }
    }

    /** Refreshes the context and compacts it if needed. A quota stop here leaves the saved boundary untouched. */
    method PrepareContext(r: Round, workingMemory: bool) returns (stop: Option<Exit>, messages: seq<Message>)
      requires Boundary(core, orderly)
      requires orderly ==> Orderly(r)
      modifies this`core
      ensures (core, stop) == Prepared(old(core), r, workingMemory)
      ensures messages == Presented(old(core), r, workingMemory)
      ensures Boundary(core, orderly)
      ensures core.state.iteration == old(core).state.iteration && SameLimits(core.state, old(core).state)
      ensures core.log == old(core).log && core.testsPassed == old(core).testsPassed
      ensures stop != Some(Completed) && stop != Some(RaisedBlocked)
      ensures stop == None && orderly ==> ClosedHistory(messages)
    {
      messages := Refreshed(core.state.messages, r, core.state.iteration, workingMemory);
      if orderly {
        RefreshKeepsHistory(core.state.messages, r, core.state.iteration, workingMemory);
      }
      match r.compaction
      case NotNeeded => stop := None;
      case QuotaDuringCompaction => stop := Some(QuotaExit);
      case Compacted(compacted, summarized, pinned, noYield) =>
        messages := Repinned(compacted, pinned);
        if orderly {
          RepinKeepsHistory(compacted, pinned);
        }
        CompactionIsBoundary(core, summarized, messages, orderly);
        BookCompaction(summarized);
        if noYield {
          return Some(BlockedExit), messages;
        }
        core := core.(state := core.state.(messages := messages));
        stop := None;
    }

    /** Asks for one more recovery strategy. */
    method SendBack(messages: seq<Message>, tag: Tag)
      requires AtBoundary()
      requires orderly ==> ClosedHistory(messages) && tag == Untagged
      modifies this`core, this`saved, this`savedCores, this`pendingMarker
      ensures core == Recovering(old(core), messages, tag)
      ensures core.notes.strategyAttempts == old(core).notes.strategyAttempts + 1
      ensures core.state.messages == messages + [Assistant(tag, []), Note(Untagged)]
      ensures AtBoundary() && saved == old(saved) + if hasRun then [Saved(core)] else []
    {
      RecoveringIsBoundary(core, messages, tag, orderly);
      core := core.(notes := core.notes.(strategyAttempts := core.notes.strategyAttempts + 1),
                    state := core.state.(messages := messages + [Assistant(tag, [])]));
      core := core.(state := core.state.(messages := core.state.messages + [Note(Untagged)]));
      var _ := CheckpointBoundary();
    }

    /** The last reply of a run; its verdict is that of the tests, unless it leaves work open. */
    method Accept(messages: seq<Message>, tag: Tag, incomplete: bool) returns (next: Option<Exit>)
      modifies this`core
      ensures core == old(core).(state := old(core).state.(
                        messages := messages + [Assistant(tag, [])],
                        phase := if incomplete then old(core).state.phase else if old(core).testsPassed then Done else Failed))
      ensures next == Some(if core.testsPassed && !incomplete then Completed else FailedExit)
    {
      core := core.(state := core.state.(messages := messages + [Assistant(tag, [])]));
      if incomplete {
        return Some(FailedExit);
      }
      core := core.(state := core.state.(phase := if core.testsPassed then Done else Failed));
      return Some(if core.testsPassed then Completed else FailedExit);
    }

    /** A reply without tool calls: accepted, sent back for another recovery strategy, or failed. */
    method FinalReply(response: Response, strategyLimit: nat, messages: seq<Message>) returns (next: Option<Exit>)
      requires AtBoundary()
      requires orderly ==> ClosedHistory(messages) && response.tag == Untagged
      modifies this`core, this`saved, this`savedCores, this`pendingMarker
      ensures (core, next) == FinalOutcome(old(core), response, strategyLimit, messages)
      ensures Valid()
      ensures next == None ==> AtBoundary() && saved == old(saved) + if hasRun then [Saved(core)] else []
      ensures next != None ==> saved == old(saved) && pendingMarker == old(pendingMarker)
      ensures next == None <==>
                && (response.incomplete || response.outstanding || !old(core).testsPassed) && !response.protectedStop
                && old(core).notes.strategyAttempts < strategyLimit
                && old(core).state.iteration < old(core).state.maxIterations
      ensures next == None ==> core.notes.strategyAttempts == old(core).notes.strategyAttempts + 1
      ensures next != None ==> core.notes == old(core).notes
      ensures core.state.messages == messages + [Assistant(response.tag, [])] + if next == None then [Note(Untagged)] else []
      ensures next in {None, Some(Completed), Some(FailedExit)}
      ensures next == Some(Completed) <==> old(core).testsPassed && !response.incomplete && !response.outstanding
      ensures next == Some(Completed) ==> core.state.phase == Done
      ensures next == None ==> core.state.phase == old(core).state.phase
      ensures core.state.iteration == old(core).state.iteration && SameLimits(core.state, old(core).state)
      ensures core.log == old(core).log && core.testsPassed == old(core).testsPassed
      ensures core.state.testResults == old(core).state.testResults
    {
      var incomplete := response.incomplete || response.outstanding;
      if (incomplete || !core.testsPassed) && !response.protectedStop
         && core.notes.strategyAttempts < strategyLimit && core.state.iteration < core.state.maxIterations {
        SendBack(messages, response.tag);
        return None;
      }
      next := Accept(messages, response.tag, incomplete);
    }

    /** Everything after the model has replied. */
    method HandleReply(r: Round, messages: seq<Message>) returns (next: Option<Exit>)
      requires AtBoundary() && r.generation.Generated?
      requires orderly ==> Orderly(r) && ClosedHistory(messages)
      modifies this`core, this`batchActive, this`saved, this`savedCores, this`pendingMarker
      ensures (core, next) == ReplyOutcome(old(core), r, messages)
      ensures r.generation.response.refused || r.generation.response.truncated ==>
                saved == old(saved) + if hasRun then [Saved(core)] else []
      ensures Valid()
      ensures core.state.iteration == old(core).state.iteration && SameLimits(core.state, old(core).state)
      ensures old(core).log <= core.log
      ensures next == None ==> AtBoundary()
      ensures next == Some(QuotaExit) ==> batchActive
      ensures batchActive ==> saved == old(saved) && savedCores == old(savedCores)
                              && (hasRun ==> pendingMarker == Some(core.state.iteration))
      ensures next == Some(Completed) ==>
                core.testsPassed && !r.generation.response.incomplete && !r.generation.response.outstanding
                && core.log == old(core).log
    {
      hide BatchOutcome;
      var response := r.generation.response;
      if response.refused || response.truncated {
        UnexecutedIsGood(core, messages, response, orderly);
        var closed := CloseTurn(messages, response);
        core := core.(state := core.state.(messages := closed, phase := Failed));
        var _ := CheckpointBoundary();
        return Some(if response.refused then BlockedExit else FailedExit);
      }
      if response.repaired == [] {
        next := FinalReply(response, r.strategyLimit, messages);
        return;
      }
      var duplicate := HasDuplicate(response.repaired);
      var tests := CountTests(response.repaired);
      if duplicate
         || core.state.toolCallsUsed + |response.repaired| > core.state.maxToolCalls
         || core.state.testRuns + tests > core.state.maxTestRuns {
        return Some(FailedExit);
      }
      assert response.repaired[0..] == response.repaired;
      var end := RunBatch(response.repaired, r, messages);
      match end
      case Finished(noProgress) => next := if noProgress then Some(BlockedExit) else None;
      case Aborted => next := Some(FailedExit);
      case QuotaInTool => next := Some(QuotaExit);
      case BlockedInTool => next := Some(RaisedBlocked);
    }

    /** Asks the model. A quota stop here restores the iteration count and keeps the round's messages. */
    method Generate(r: Round, messages: seq<Message>) returns (next: Option<Exit>)
      requires AtBoundary() && core.state.iteration < core.state.maxIterations
      requires orderly ==> Orderly(r) && ClosedHistory(messages)
      modifies this`core, this`batchActive, this`saved, this`savedCores, this`pendingMarker
      ensures (core, next) == GenerationOutcome(old(core), r, messages)
      ensures Valid()
      ensures SameLimits(core.state, old(core).state) && old(core).log <= core.log
      ensures next == Some(QuotaExit) && !batchActive ==>
                core == old(core).(state := old(core).state.(messages := messages)) && saved == old(saved)
      ensures !(next == Some(QuotaExit) && !batchActive) ==> core.state.iteration == old(core).state.iteration + 1
      ensures next == None ==> AtBoundary()
      ensures batchActive ==> saved == old(saved) && (hasRun ==> pendingMarker == Some(core.state.iteration))
      ensures next == Some(Completed) ==>
                core.testsPassed && r.generation.Generated?
                && !r.generation.response.incomplete && !r.generation.response.outstanding
    {
      hide ReplyOutcome, StreakTracked, TestsIn, LatestOutcomes, AllPassed;
      ghost var before := core;
      var iteration := core.state.iteration;
      LaterIterationKeepsSaved(saved, savedCores, orderly, iteration, iteration + 1);
      core := core.(state := core.state.(iteration := iteration + 1));
      match r.generation
      case QuotaDuringGeneration =>
        core := core.(state := core.state.(iteration := iteration, messages := messages));
        next := Some(QuotaExit);
      case BlockedDuringGeneration =>
        next := Some(RaisedBlocked);
      case GenerationFailed =>
        core := core.(state := core.state.(phase := Failed));
        next := Some(FailedExit);
      case Generated(_) =>
        core := core.(metrics := core.metrics.(modelCalls := core.metrics.modelCalls + 1));
        RepliedAgrees(before, orderly);
        next := HandleReply(r, messages);
    }

    /** One iteration of the loop. */
    method RunRound(r: Round, workingMemory: bool) returns (next: Option<Exit>)
      requires AtBoundary() && core.state.iteration < core.state.maxIterations
      requires orderly ==> Orderly(r)
      modifies this`core, this`batchActive, this`saved, this`savedCores, this`pendingMarker
      ensures (core, next) == RoundOutcome(old(core), r, workingMemory)
      ensures Valid()
      ensures SameLimits(core.state, old(core).state) && old(core).log <= core.log
      ensures next == None ==> AtBoundary() && core.state.iteration == old(core).state.iteration + 1
      ensures next == Some(QuotaExit) && !batchActive ==>
                AtBoundary() && core.state.iteration == old(core).state.iteration && core.log == old(core).log
                && saved == old(saved)
      ensures batchActive ==> saved == old(saved) && core.state.iteration == old(core).state.iteration + 1
                              && (hasRun ==> pendingMarker == Some(core.state.iteration))
      ensures next == Some(Completed) ==>
                SoundCompletion(core, r) && core.state.iteration == old(core).state.iteration + 1
    {
      hide GenerationOutcome, LatestOutcomes, StreakTracked, TestsIn;
      var messages;
      next, messages := PrepareContext(r, workingMemory);
      if next == None {
        if r.overBudget {
          core := core.(state := core.state.(phase := Failed));
          next := Some(FailedExit);
        } else {
          next := Generate(r, messages);
          if next == Some(Completed) {
            CompletionIsSound(core, r);
          }
        }
      }
    }

    // ----- whole runs ------------------------------------------------------------------------

    /** No checkpoint of this execution reaches the iteration of the batch that was cut short. */
    ghost predicate InterruptedBatchIsMarked()
      reads this
    {
      && pendingMarker == Some(core.state.iteration)
      && forall i :: 0 <= i < |saved| ==> saved[i].state.iteration < core.state.iteration
    }

    /** The loop's view of one round. */
    method Advance(env: nat -> Round, resumed: bool, first: nat) returns (next: Option<Exit>)
      requires AtBoundary() && core.state.iteration < core.state.maxIterations
      requires orderly ==> OrderlyEnvironment(env)
      modifies this`core, this`batchActive, this`saved, this`savedCores, this`pendingMarker
      ensures LoopOutcome(old(core), env, resumed, first, old(core).state.iteration, old(core).state.maxIterations)
              == if next != None then (core, next.value)
                 else LoopOutcome(core, env, resumed, first, core.state.iteration, core.state.maxIterations)
      ensures Valid()
      ensures SameLimits(core.state, old(core).state) && old(core).log <= core.log
      ensures next == None ==> AtBoundary() && core.state.iteration == old(core).state.iteration + 1
      ensures next == Some(QuotaExit) && !batchActive ==> AtBoundary()
      ensures batchActive && hasRun ==> InterruptedBatchIsMarked()
      ensures next == Some(Completed) ==> core.state.iteration > 0 && SoundCompletion(core, env(core.state.iteration - 1))
    {
      hide RoundOutcome;
      var iteration := core.state.iteration;
      SavedIterations(saved, savedCores, orderly, iteration);
      next := RunRound(env(iteration), !(resumed && iteration == first));
    }

    /** The whole loop. */
    method Iterate(env: nat -> Round, resumed: bool) returns (exit: Exit)
      requires AtBoundary()
      requires orderly ==> OrderlyEnvironment(env)
      modifies this`core, this`batchActive, this`saved, this`savedCores, this`pendingMarker
      ensures (core, exit) == LoopOutcome(old(core), env, resumed, old(core).state.iteration,
                                          old(core).state.iteration, old(core).state.maxIterations)
      ensures Valid()
      ensures SameLimits(core.state, old(core).state) && old(core).log <= core.log
      ensures exit == Completed ==> core.state.iteration > 0 && SoundCompletion(core, env(core.state.iteration - 1))
      ensures exit == QuotaExit && !batchActive ==> AtBoundary()
      ensures batchActive && hasRun ==> InterruptedBatchIsMarked()
    {
      hide RoundOutcome, LatestOutcomes, SavedAreGood, StreakTracked, TestsIn;
      var first := core.state.iteration;
      while core.state.iteration < core.state.maxIterations
        invariant AtBoundary()
        invariant SameLimits(core.state, old(core).state) && old(core).log <= core.log
        invariant LoopOutcome(core, env, resumed, first, core.state.iteration, core.state.maxIterations)
                  == LoopOutcome(old(core), env, resumed, first, first, core.state.maxIterations)
        decreases core.state.maxIterations - core.state.iteration
      {
        var next := Advance(env, resumed, first);
        if next != None {
          return next.value;
        }
      }
      core := core.(state := core.state.(phase := Failed));
      return FailedExit;
    }

    /** Ends the execution: a quota stop is paused, every other exit records its terminal phase. */
    method Conclude(exit: Exit)
      requires Valid()
      requires exit == QuotaExit && !batchActive ==> AtBoundary()
      modifies this`core, this`saved, this`savedCores, this`pendingMarker, this`hasRun
      ensures Valid()
      ensures core == Concluded(old(core), exit) && !hasRun
      ensures exit == QuotaExit && !batchActive && old(hasRun) ==> saved == old(saved) + [Saved(core)]
      ensures exit != QuotaExit || batchActive ==> saved == old(saved) && pendingMarker == old(pendingMarker)
      ensures core.log == old(core).log && core.state.iteration == old(core).state.iteration
      ensures SameLimits(core.state, old(core).state)
    {
      if exit == QuotaExit {
        var _ := PauseForQuota();
      } else if exit != RaisedBlocked {
        core := core.(state := core.state.(phase := if exit == Completed then Done else Failed));
      }
      hasRun := false;
    }

    /** Runs from a boundary to an exit and concludes. */
    method RunToEnd(env: nat -> Round, resumed: bool) returns (exit: Exit)
      requires AtBoundary()
      requires orderly ==> OrderlyEnvironment(env)
      modifies this`core, this`batchActive, this`saved, this`savedCores, this`pendingMarker, this`hasRun
      ensures (core, exit) == RunOutcome(old(core), env, resumed)
      ensures Valid() && !hasRun
      ensures SameLimits(core.state, old(core).state) && old(core).log <= core.log
      ensures exit == Completed ==> core.state.iteration > 0 && SoundCompletion(core, env(core.state.iteration - 1))
      ensures exit == QuotaExit && !batchActive && old(hasRun) ==>
                saved != [] && saved[|saved| - 1] == Saved(core) && Boundary(core, orderly)
      ensures batchActive && old(hasRun) ==> InterruptedBatchIsMarked()
    {
      hide LoopOutcome;
      exit := Iterate(env, resumed);
      Conclude(exit);
    }

    /** Nothing of an earlier run is left. */
    method Begin(preamble: seq<Message>, withRuntime: bool)
      requires AllNotes(preamble)
      modifies this`core, this`batchActive, this`saved, this`savedCores, this`pendingMarker, this`hasRun
      ensures AtBoundary() && hasRun == withRuntime
      ensures saved == (if withRuntime then [Saved(core)] else []) && pendingMarker == None
      ensures core == InitialCore(old(core).state.maxIterations, old(core).state.maxToolCalls,
                                  old(core).state.maxTestRuns, preamble)
    {
      var s := core.state;
      core := Core(AgentState(0, s.maxIterations, 0, s.maxToolCalls, 0, s.maxTestRuns, Executing, preamble, [], []),
                   Metrics(0, 0), Notes(None, 0, false, 0, 0), map[], true, [], {}, true);
      NotesKeepPending(Open(multiset{}), preamble);
      batchActive, hasRun, pendingMarker, saved, savedCores := false, withRuntime, None, [], [];
      var _ := CheckpointBoundary();
    }

    /** A fresh run. */
    method Execute(preamble: seq<Message>, env: nat -> Round, withRuntime: bool) returns (exit: Exit)
      requires AllNotes(preamble)
      modifies this
      ensures var start := InitialCore(old(core).state.maxIterations, old(core).state.maxToolCalls,
                                       old(core).state.maxTestRuns, preamble);
              (core, exit) == RunOutcome(start, env, false)
      ensures Valid() && !hasRun
      ensures SameLimits(core.state, old(core).state)
      ensures OrderlyEnvironment(env) ==> orderly
      ensures exit == Completed ==> core.state.iteration > 0 && SoundCompletion(core, env(core.state.iteration - 1))
      ensures exit == QuotaExit && !batchActive && withRuntime ==>
                saved != [] && saved[|saved| - 1] == Saved(core) && Boundary(core, orderly)
      ensures batchActive && withRuntime ==> InterruptedBatchIsMarked()
    {
      hide RunOutcome;
      orderly := OrderlyEnvironment(env);
      Begin(preamble, withRuntime);
      exit := RunToEnd(env, false);
    }

    method Restore(c: Checkpoint, log: seq<CallOutcome>, nudges: set<nat>, traced: bool)
      requires Resumable(c) && GoodCheckpoint(Restored(c, log, nudges, traced), false)
      requires orderly ==> ProtocolUntagged(c.state.messages)
      modifies this`core, this`batchActive, this`saved, this`savedCores, this`pendingMarker, this`hasRun
      ensures AtBoundary() && hasRun
      ensures core == Restored(c, log, nudges, traced) && saved == [c]
    {
      var outcomes := RebuildOutcomes(c.state.testResults);
      core := Core(c.state, c.metrics, c.notes, outcomes, forall k :: k in outcomes ==> outcomes[k], log, nudges,
                   traced);
      batchActive, hasRun, pendingMarker, saved := false, true, None, [c];
      savedCores := [core];
    }

    /** A run resumed from a checkpoint. `log` and `nudges` are the events emitted before it was saved; if they are not
        known, `traced` is false. The checkpoint is rejected if it fails validation or if a tool batch of a later iteration
        was cut short. */
    method Resume(c: Checkpoint, log: seq<CallOutcome>, nudges: set<nat>, traced: bool, env: nat -> Round)
      returns (exit: Option<Exit>)
      requires Resumable(c) && traced ==> GoodCheckpoint(Restored(c, log, nudges, true), false)
      modifies this
      ensures exit == None <==> !Resumable(c) || (old(pendingMarker).Some? && old(pendingMarker).value > c.state.iteration)
      ensures exit == None ==> core == old(core) && saved == old(saved) && pendingMarker == old(pendingMarker)
      ensures exit != None ==> (core, exit.value) == RunOutcome(Restored(c, log, nudges, traced), env, true)
      ensures exit != None ==> Valid() && !hasRun && SameLimits(core.state, c.state) && log <= core.log
      ensures exit != None && ProtocolUntagged(c.state.messages) && OrderlyEnvironment(env) ==> orderly
      ensures exit == Some(Completed) ==>
                core.state.iteration > 0 && SoundCompletion(core, env(core.state.iteration - 1))
      ensures exit == Some(QuotaExit) && !batchActive ==>
                saved != [] && saved[|saved| - 1] == Saved(core) && Boundary(core, orderly)
      ensures exit != None && batchActive ==> InterruptedBatchIsMarked()
    {
      hide RunOutcome;
      var ok := ValidateResume(c);
      if !ok || (pendingMarker.Some? && pendingMarker.value > c.state.iteration) {
        return None;
      }
      orderly := ProtocolUntagged(c.state.messages) && OrderlyEnvironment(env);
      if !traced {
        ValidationSuffices(c, log, nudges);
      }
      Restore(c, log, nudges, traced);
      var end := RunToEnd(env, true);
      exit := Some(end);
    }
  }

  /** Records a reply that is not executed, with one result per call. */
  method CloseTurn(messages: seq<Message>, response: Response) returns (closed: seq<Message>)
    ensures closed == messages + UnexecutedTurn(response)
  {
    closed := messages + [Assistant(response.tag, response.calls)];
    for k := 0 to |response.calls|
      invariant closed == messages + ([Assistant(response.tag, response.calls)] + NotExecuted(response.calls[..k]))
    {
      assert response.calls[..k + 1][..k] == response.calls[..k];
      assert NotExecuted(response.calls[..k + 1]) == NotExecuted(response.calls[..k]) + [Reply(Untagged, response.calls[k].id)];
      closed := closed + [Reply(Untagged, response.calls[k].id)];
    }
    assert response.calls[..|response.calls|] == response.calls;
  }

  method CountTests(calls: seq<ToolCall>) returns (count: nat)
    ensures count == TestCount(calls)
  {
    count := 0;
    for k := 0 to |calls|
      invariant count + TestCount(calls[k..]) == TestCount(calls)
    {
      assert calls[k..][1..] == calls[k + 1..];
      if calls[k].name == RUN_TESTS {
        count := count + 1;
      }
    }
  }
}
