/** State and transitions of the agent tool loop. */
module LoopState {
  // Budgets, the tool-batch protocol, stagnation and test outcomes. Everything the loop cannot decide itself (model
  // replies, tool results, compaction, quota exhaustion) arrives through one `Round` value per iteration, so each
  // statement below holds for every behaviour of the outside.

  import opened Wrappers
  import opened ProtocolHistory

  const STAGNATION_WARNING := 3
  const STAGNATION_ABORT := 5
  const RUN_TESTS := "run_tests"

  datatype Phase = Executing | Verifying | Reflecting | Done | Failed

  datatype TestResult = TestResult(name: string, passed: bool)

  datatype AgentState = AgentState(
    iteration: nat, maxIterations: nat,
    toolCallsUsed: nat, maxToolCalls: nat,
    testRuns: nat, maxTestRuns: nat,
    phase: Phase, messages: seq<Message>, toolCalls: seq<ToolCall>, testResults: seq<TestResult>)

  datatype Metrics = Metrics(toolCalls: nat, modelCalls: nat)

  datatype Notes = Notes(
    lastFailing: Option<string>, repeated: nat, warned: bool, strategyAttempts: nat, summaryCalls: nat)

  datatype Checkpoint = Checkpoint(state: AgentState, metrics: Metrics, notes: Notes)

  // ----- what the outside does in one iteration ----------------------------------------------

  datatype Progress = Continue | Recover | Stop

  datatype ToolStep =
    | Ran(success: bool, tag: Tag, progress: Progress)
    | QuotaDuringTool
    | BlockedDuringTool

  datatype Compaction =
    | NotNeeded
    | QuotaDuringCompaction
    | Compacted(messages: seq<Message>, summarized: bool, pinned: bool, stop: bool)

  /** `repaired` are the calls after repair or recovery from text; `outstanding` says that a completion
      prerequisite is still open; `incomplete` and `protectedStop` are the text-pattern verdicts. */
  datatype Response = Response(
    tag: Tag, calls: seq<ToolCall>, refused: bool, truncated: bool, repaired: seq<ToolCall>,
    incomplete: bool, protectedStop: bool, outstanding: bool)

  datatype Generation =
    | QuotaDuringGeneration
    | BlockedDuringGeneration
    | GenerationFailed
    | Generated(response: Response)

  datatype Round = Round(
    contextNotes: seq<Tag>, compaction: Compaction, overBudget: bool, strategyLimit: nat,
    generation: Generation, tools: nat -> ToolStep)

  datatype Exit = Completed | FailedExit | BlockedExit | QuotaExit | RaisedBlocked

  /** The contract assumed of the outside for the history statements: no model or tool text starts with an
      engine prefix, and compaction returns a closed history. */
  ghost predicate Orderly(r: Round) {
    && (r.compaction.Compacted? ==>
          && Closed(r.compaction.messages)
          && DistinctTurns(r.compaction.messages)
          && ProtocolUntagged(r.compaction.messages))
    && (r.generation.Generated? ==> r.generation.response.tag == Untagged)
    && (forall k :: r.tools(k).Ran? ==> r.tools(k).tag == Untagged)
  }

  ghost predicate OrderlyEnvironment(env: nat -> Round) {
    forall i :: Orderly(env(i))
  }

  // ----- stagnation --------------------------------------------------------------------------

  /** One consumed call and whether it succeeded. */
  datatype CallOutcome = CallOutcome(call: ToolCall, success: bool)

  function Signature(tc: ToolCall): string {
    tc.name + ":" + tc.arguments
  }

  /** Tool names hold no colon, so two calls have one signature exactly if they agree in name and arguments. */
  lemma SignatureTellsCalls(a: ToolCall, b: ToolCall)
    requires ':' !in a.name && ':' !in b.name
    ensures Signature(a) == Signature(b) <==> a.name == b.name && a.arguments == b.arguments
  {
    var s, t := Signature(a), Signature(b);
    assert s[|a.name|] == ':' && t[|b.name|] == ':';
    assert forall i :: 0 <= i < |a.name| ==> s[i] == a.name[i];
    assert forall i :: 0 <= i < |b.name| ==> t[i] == b.name[i];
    if s == t {
      assert t[|a.name|] == ':' && s[|b.name|] == ':';
      assert a.name == s[..|a.name|] == b.name;
      assert a.arguments == s[|a.name| + 1..] == b.arguments;
    }
  }

  predicate SameFailure(a: CallOutcome, b: CallOutcome) {
    !a.success && !b.success && Signature(a.call) == Signature(b.call)
  }

  /** Length of the current run of identical failing calls. */
  function FailStreak(log: seq<CallOutcome>): nat {
    if log == [] || log[|log| - 1].success then 0
    else if |log| >= 2 && SameFailure(log[|log| - 2], log[|log| - 1]) then 1 + FailStreak(log[..|log| - 1])
    else 1
  }

  ghost predicate IdenticalFailingTail(log: seq<CallOutcome>, k: nat)
    requires k <= |log|
  {
    forall i :: |log| - k <= i < |log| ==> SameFailure(log[i], log[|log| - 1])
  }

  /** The counter is the length of the longest suffix of identical failing calls. */
  lemma {:induction false} StreakIsLongestTail(log: seq<CallOutcome>, k: nat)
    requires k <= |log|
    ensures FailStreak(log) <= |log|
    ensures IdenticalFailingTail(log, k) <==> k <= FailStreak(log)
  {
    if log != [] && !log[|log| - 1].success {
      var init := log[..|log| - 1];
      StreakIsLongestTail(init, if k == 0 then 0 else k - 1);
      if |log| >= 2 && SameFailure(log[|log| - 2], log[|log| - 1]) {
        assert k > 1 ==> (IdenticalFailingTail(init, k - 1) <==> IdenticalFailingTail(log, k));
      } else if k >= 2 {
        assert !SameFailure(log[|log| - 2], log[|log| - 1]);
        assert !IdenticalFailingTail(log, k);
      }
    } else if log != [] && k > 0 {
      assert !IdenticalFailingTail(log, k) by { assert log[|log| - 1].success; }
    }
  }

  /** The calls after which a run of failures reached the warning threshold. */
  ghost function WarningPoints(log: seq<CallOutcome>): set<nat> {
    set n: nat | 0 < n <= |log| && FailStreak(log[..n]) == STAGNATION_WARNING
  }

  /** Within one run of identical failures there is at most one nudge. */
  lemma OneNudgePerStreak(log: seq<CallOutcome>, m: nat, n: nat)
    requires m in WarningPoints(log) && n in WarningPoints(log) && m < n
    ensures exists k :: m < k <= n && FailStreak(log[..k]) <= 1
  {
    StreakGrowsByOne(log, m, n);
  }

  lemma {:induction false} StreakGrowsByOne(log: seq<CallOutcome>, m: nat, n: nat)
    requires 0 < m <= n <= |log|
    ensures (exists k :: m < k <= n && FailStreak(log[..k]) <= 1)
            || FailStreak(log[..n]) == FailStreak(log[..m]) + (n - m)
    decreases n
  {
    if m < n {
      StreakGrowsByOne(log, m, n - 1);
      assert log[..n][..n - 1] == log[..n - 1];
    }
  }

  /** The streak fields mean what they should about the consumed calls; `nudges` are the call counts after which
      the model was nudged. */
  ghost predicate StreakTracked(n: Notes, log: seq<CallOutcome>, nudges: set<nat>) {
    && n.repeated == FailStreak(log)
    && n.lastFailing == (if log != [] && !log[|log| - 1].success
                         then Some(Signature(log[|log| - 1].call)) else None)
    && n.warned == (n.repeated >= STAGNATION_WARNING)
    && nudges == WarningPoints(log)
    && NeverPastAbort(log)
  }

  /** No run of identical failures ever went past the abort threshold. */
  predicate NeverPastAbort(log: seq<CallOutcome>) {
    log == [] || (FailStreak(log) <= STAGNATION_ABORT && NeverPastAbort(log[..|log| - 1]))
  }

  lemma {:induction false} NeverPastAbortAnywhere(log: seq<CallOutcome>, k: nat)
    requires NeverPastAbort(log) && k <= |log|
    ensures FailStreak(log[..k]) <= STAGNATION_ABORT
  {
    if k == |log| {
      assert log[..k] == log;
    } else {
      assert log[..|log| - 1][..k] == log[..k];
      NeverPastAbortAnywhere(log[..|log| - 1], k);
    }
  }

  function Observe(n: Notes, tc: ToolCall, success: bool): Notes {
    if success then n.(repeated := 0, warned := false, lastFailing := None)
    else if n.lastFailing == Some(Signature(tc)) then n.(repeated := n.repeated + 1)
    else n.(repeated := 1, warned := false, lastFailing := Some(Signature(tc)))
  }

  function Nudged(n: Notes): bool {
    STAGNATION_WARNING <= n.repeated < STAGNATION_ABORT && !n.warned
  }

  function AfterCall(n: Notes, tc: ToolCall, success: bool): Notes {
    var o := Observe(n, tc, success);
    if Nudged(o) then o.(warned := true) else o
  }

  function NudgesAfter(nudges: set<nat>, n: Notes, tc: ToolCall, success: bool, calls: nat): set<nat> {
    if Nudged(Observe(n, tc, success)) then nudges + {calls} else nudges
  }

  lemma CallKeepsStreak(n: Notes, log: seq<CallOutcome>, nudges: set<nat>, tc: ToolCall, success: bool)
    requires StreakTracked(n, log, nudges) && n.repeated < STAGNATION_ABORT
    ensures StreakTracked(AfterCall(n, tc, success), log + [CallOutcome(tc, success)],
                          NudgesAfter(nudges, n, tc, success, |log| + 1))
  {
    var log' := log + [CallOutcome(tc, success)];
    assert log'[..|log|] == log && log'[..|log'|] == log';
    var o := Observe(n, tc, success);
    assert o.repeated == FailStreak(log');
    assert forall k :: 0 <= k <= |log| ==> log'[..k] == log[..k];
    var nudges' := NudgesAfter(nudges, n, tc, success, |log| + 1);
    forall k: nat ensures k in nudges' <==> k in WarningPoints(log') {
      if k == |log'| {
        assert k !in nudges;
      }
    }
  }

  // ----- tests -------------------------------------------------------------------------------

  /** Latest result per target, as the live run keeps it and as a resumed run rebuilds it. */
  function LatestOutcomes(results: seq<TestResult>): map<string, bool> {
    if results == [] then map[]
    else LatestOutcomes(results[..|results| - 1])[results[|results| - 1].name := results[|results| - 1].passed]
  }

  predicate AllPassed(outcomes: map<string, bool>) {
    forall k :: k in outcomes ==> outcomes[k]
  }

  /** Every target's latest run passed. */
  ghost predicate LatestRunsPassed(results: seq<TestResult>) {
    forall i :: 0 <= i < |results| && (forall j :: i < j < |results| ==> results[j].name != results[i].name)
      ==> results[i].passed
  }

  lemma {:induction false} LatestOutcomeMeaning(results: seq<TestResult>, i: nat)
    requires i < |results|
    requires forall j :: i < j < |results| ==> results[j].name != results[i].name
    ensures results[i].name in LatestOutcomes(results)
    ensures LatestOutcomes(results)[results[i].name] == results[i].passed
  {
    if i < |results| - 1 {
      LatestOutcomeMeaning(results[..|results| - 1], i);
    }
  }

  lemma {:induction false} LatestOutcomeWitness(results: seq<TestResult>, name: string) returns (i: nat)
    requires name in LatestOutcomes(results)
    ensures i < |results| && results[i].name == name
    ensures forall j :: i < j < |results| ==> results[j].name != name
  {
    if results[|results| - 1].name == name {
      i := |results| - 1;
    } else {
      i := LatestOutcomeWitness(results[..|results| - 1], name);
    }
  }

  lemma AllPassedMeansLatestRunsPassed(results: seq<TestResult>)
    ensures AllPassed(LatestOutcomes(results)) <==> LatestRunsPassed(results)
  {
    if AllPassed(LatestOutcomes(results)) {
      forall i | 0 <= i < |results| && forall j :: i < j < |results| ==> results[j].name != results[i].name
        ensures results[i].passed
      {
        LatestOutcomeMeaning(results, i);
      }
    }
    if LatestRunsPassed(results) {
      forall k | k in LatestOutcomes(results) ensures LatestOutcomes(results)[k] {
        var i := LatestOutcomeWitness(results, k);
        LatestOutcomeMeaning(results, i);
      }
    }
  }

  /** The test runs among the consumed calls, in order. */
  function TestsIn(log: seq<CallOutcome>): seq<TestResult> {
    if log == [] then []
    else
      var last := log[|log| - 1];
      TestsIn(log[..|log| - 1])
      + if last.call.name == RUN_TESTS then [TestResult(last.call.target, last.success)] else []
  }

  function TestCount(calls: seq<ToolCall>): nat {
    if calls == [] then 0
    else (if calls[0].name == RUN_TESTS then 1 else 0) + TestCount(calls[1..])
  }

  // ----- what holds at every checkpoint ------------------------------------------------------

  ghost predicate WithinBudgets(s: AgentState) {
    && s.iteration <= s.maxIterations
    && s.toolCallsUsed <= s.maxToolCalls
    && s.testRuns <= s.maxTestRuns
    && |s.testResults| == s.testRuns
  }

  /** The counters agree with each other, as the resume validation demands. */
  ghost predicate CountersAgree(s: AgentState, m: Metrics, n: Notes) {
    && m.toolCalls == s.toolCallsUsed == |s.toolCalls|
    && m.modelCalls == s.iteration + n.summaryCalls
  }

  ghost predicate ClosedHistory(ms: seq<Message>) {
    Closed(ms) && DistinctTurns(ms) && ProtocolUntagged(ms)
  }

  /** The live part of an agent: its saved state and counters, the outcome per test target, and the events it has
      emitted so far: one per consumed call, and the call counts after which it nudged the model. If it is not traced, it was
      resumed from a checkpoint of unknown origin, and the events are only those since. */
  datatype Core = Core(
    state: AgentState, metrics: Metrics, notes: Notes, outcomes: map<string, bool>, testsPassed: bool,
    log: seq<CallOutcome>, nudges: set<nat>, traced: bool)

  function InitialCore(maxIterations: nat, maxToolCalls: nat, maxTestRuns: nat, messages: seq<Message>): Core {
    Core(AgentState(0, maxIterations, 0, maxToolCalls, 0, maxTestRuns, Executing, messages, [], []),
         Metrics(0, 0), Notes(None, 0, false, 0, 0), map[], true, [], {}, true)
  }

  /** The counters and streak notes tell what the events tell. */
  ghost predicate TellsItsEvents(c: Core) {
    && c.state.toolCallsUsed == |c.log|
    && c.state.testResults == TestsIn(c.log)
    && StreakTracked(c.notes, c.log, c.nudges)
  }

  /** Holds at every moment of every run. */
  ghost predicate Live(c: Core) {
    && WithinBudgets(c.state)
    && c.metrics.toolCalls == c.state.toolCallsUsed
    && c.outcomes == LatestOutcomes(c.state.testResults)
    && c.testsPassed == AllPassed(c.outcomes)
    && (c.traced ==> TellsItsEvents(c))
  }

  predicate BelowAbort(c: Core) {
    c.traced ==> c.notes.repeated < STAGNATION_ABORT
  }

  ghost predicate Running(c: Core) {
    Live(c) && BelowAbort(c) && c.state.phase !in {Done, Failed}
  }

  /** Between rounds: a complete protocol boundary that may be checkpointed and resumed. */
  ghost predicate Boundary(c: Core, orderly: bool) {
    && Running(c)
    && CountersAgree(c.state, c.metrics, c.notes)
    && (orderly ==> ClosedHistory(c.state.messages))
  }

  /** What a saved checkpoint guarantees. `c` is the live core it was taken from. A refusal or a truncated reply
      is saved with a failed phase and, if the model repeated an id, with a repeated id. */
  ghost predicate GoodCheckpoint(c: Core, orderly: bool) {
    && Live(c) && BelowAbort(c)
    && CountersAgree(c.state, c.metrics, c.notes)
    && c.state.phase != Done
    && (orderly ==> Closed(c.state.messages))
    && (orderly && c.state.phase != Failed ==> ClosedHistory(c.state.messages))
  }

  function Saved(c: Core): Checkpoint {
    Checkpoint(c.state, c.metrics, c.notes)
  }

  ghost predicate Resumable(c: Checkpoint) {
    && c.state.phase !in {Done, Failed}
    && WithinBudgets(c.state)
    && CountersAgree(c.state, c.metrics, c.notes)
    && Closed(c.state.messages) && DistinctTurns(c.state.messages)
  }

  /** The check a resumed run makes before it trusts a checkpoint. */
  method ValidateResume(c: Checkpoint) returns (ok: bool)
    ensures ok <==> Resumable(c)
  {
    var s := c.state;
    if s.phase == Done || s.phase == Failed {
      return false;
    }
    if !(s.iteration <= s.maxIterations && s.toolCallsUsed <= s.maxToolCalls && s.testRuns <= s.maxTestRuns) {
      return false;
    }
    if c.notes.summaryCalls > c.metrics.modelCalls
       || c.metrics.toolCalls != s.toolCallsUsed || c.metrics.modelCalls != s.iteration + c.notes.summaryCalls
       || |s.toolCalls| != s.toolCallsUsed || |s.testResults| != s.testRuns {
      return false;
    }
    ok := ValidateHistory(s.messages);
  }

  /** In an orderly run every saved history answers each call exactly once before the next assistant turn, and the
      checkpoint passes the resume validation unless it records a refusal or a truncated reply. */
  lemma SavedCheckpointsAreResumable(c: Core)
    requires GoodCheckpoint(c, true)
    ensures AnsweredExactlyOnce(c.state.messages)
    ensures c.state.phase == Failed || Resumable(Saved(c))
  {
    ClosedMeansAnsweredExactlyOnce(c.state.messages);
  }

  // ----- message building --------------------------------------------------------------------

  function RefreshTags(workingMemory: bool): set<Tag> {
    {Profile, Memory, Team, Pinned} + (if workingMemory then {WorkingMemory} else {})
  }

  /** The messages shown to the model: stale engine notes stripped, new ones inserted, a reminder every
      fifth round. */
  function Refreshed(ms: seq<Message>, r: Round, iteration: nat, workingMemory: bool): seq<Message> {
    var shown := InsertNotes(Drop(ms, RefreshTags(workingMemory)), r.contextNotes);
    if (iteration + 1) % 5 == 0 then Drop(shown, {Reminder}) + [Note(Reminder)] else shown
  }

  function Repinned(ms: seq<Message>, pinned: bool): seq<Message> {
    InsertNotes(Drop(ms, {Pinned}), if pinned then [Pinned] else [])
  }

  lemma DropKeepsHistory(ms: seq<Message>, tags: set<Tag>)
    requires ClosedHistory(ms) && Untagged !in tags
    ensures ClosedHistory(Drop(ms, tags))
  {
    DropKeepsPending(Open(multiset{}), ms, tags);
  }

  lemma InsertKeepsHistory(ms: seq<Message>, tags: seq<Tag>)
    requires ClosedHistory(ms)
    ensures ClosedHistory(InsertNotes(ms, tags))
  {
    InsertKeepsPending(Open(multiset{}), ms, tags);
  }

  lemma NoteKeepsHistory(ms: seq<Message>, tag: Tag)
    requires ClosedHistory(ms)
    ensures ClosedHistory(ms + [Note(tag)])
  {
    ScanPush(ms, Note(tag));
  }

  lemma RefreshKeepsHistory(ms: seq<Message>, r: Round, iteration: nat, workingMemory: bool)
    requires ClosedHistory(ms)
    ensures ClosedHistory(Refreshed(ms, r, iteration, workingMemory))
  {
    DropKeepsHistory(ms, RefreshTags(workingMemory));
    var shown := InsertNotes(Drop(ms, RefreshTags(workingMemory)), r.contextNotes);
    InsertKeepsHistory(Drop(ms, RefreshTags(workingMemory)), r.contextNotes);
    if (iteration + 1) % 5 == 0 {
      DropKeepsHistory(shown, {Reminder});
      NoteKeepsHistory(Drop(shown, {Reminder}), Reminder);
    }
  }

  lemma RepinKeepsHistory(ms: seq<Message>, pinned: bool)
    requires ClosedHistory(ms)
    ensures ClosedHistory(Repinned(ms, pinned))
  {
    DropKeepsHistory(ms, {Pinned});
    InsertKeepsHistory(Drop(ms, {Pinned}), if pinned then [Pinned] else []);
  }

  function NotesFor(tags: seq<Tag>): seq<Message> {
    seq(|tags|, i requires 0 <= i < |tags| => Note(tags[i]))
  }

  /** New notes stand, in order, in front of the first assistant turn or tool result. */
  lemma {:induction false} NotesStandInFront(ms: seq<Message>, head: seq<Message>, tags: seq<Tag>)
    requires AllNotes(head) && (ms == [] || !ms[0].Note?)
    ensures InsertNotes(head + ms, tags) == head + NotesFor(tags) + ms
    decreases |tags|
  {
    HeadEndIs(head, ms);
    if tags != [] {
      var note := Note(tags[0]);
      assert InsertNote(head + ms, tags[0]) == (head + [note]) + ms;
      NotesStandInFront(ms, head + [note], tags[1..]);
      assert NotesFor(tags) == [note] + NotesFor(tags[1..]);
      assert head + [note] + NotesFor(tags[1..]) + ms == head + NotesFor(tags) + ms;
    } else {
      assert head + NotesFor(tags) + ms == head + ms;
    }
  }

  lemma {:induction false} HeadEndIs(head: seq<Message>, ms: seq<Message>)
    requires AllNotes(head) && (ms == [] || !ms[0].Note?)
    ensures HeadEnd(head + ms) == |head|
  {
    if head == [] {
      assert head + ms == ms;
    } else {
      assert (head + ms)[1..] == head[1..] + ms;
      HeadEndIs(head[1..], ms);
    }
  }

  lemma {:induction false} DropCounts(ms: seq<Message>, tags: set<Tag>, m: Message)
    ensures multiset(Drop(ms, tags))[m] == if m.tag in tags then 0 else multiset(ms)[m]
  {
    if ms != [] {
      DropCounts(ms[1..], tags, m);
      assert ms == [ms[0]] + ms[1..];
    }
  }

  lemma {:induction false} NotesCount(tags: seq<Tag>, m: Message)
    ensures multiset(NotesFor(tags))[m] == if m.Note? then multiset(tags)[m.tag] else 0
  {
    if tags != [] {
      NotesCount(tags[1..], m);
      assert tags == [tags[0]] + tags[1..] && NotesFor(tags) == [Note(tags[0])] + NotesFor(tags[1..]);
    }
  }

  lemma InsertCounts(ms: seq<Message>, tags: seq<Tag>, m: Message)
    ensures multiset(InsertNotes(ms, tags))[m] == multiset(ms)[m] + if m.Note? then multiset(tags)[m.tag] else 0
  {
    var head, rest := ms[..HeadEnd(ms)], ms[HeadEnd(ms)..];
    assert ms == head + rest;
    NotesStandInFront(rest, head, tags);
    NotesCount(tags, m);
  }

  /** What was said about the engine before is gone, what is said now is there once for each note, and all else is still
      there. Every fifth round the reminder is the last message, and the only one. */
  lemma RefreshMeans(ms: seq<Message>, r: Round, iteration: nat, workingMemory: bool, m: Message)
    ensures var shown, fifth := Refreshed(ms, r, iteration, workingMemory), iteration % 5 == 4;
            var now := if m.Note? then multiset(r.contextNotes)[m.tag] else 0;
            && (m.tag in {Profile, Memory, Team, Pinned} ==> multiset(shown)[m] == now)
            && (m.tag == WorkingMemory ==> multiset(shown)[m] == (if workingMemory then 0 else multiset(ms)[m]) + now)
            && (m.tag == Untagged ==> multiset(shown)[m] == multiset(ms)[m] + now)
            && (m.tag == Reminder && !fifth ==> multiset(shown)[m] == multiset(ms)[m] + now)
            && (fifth ==> shown != [] && shown[|shown| - 1] == Note(Reminder))
            && (m.tag == Reminder && fifth ==> multiset(shown)[m] == if m.Note? then 1 else 0)
  {
    var kept := Drop(ms, RefreshTags(workingMemory));
    var shown := InsertNotes(kept, r.contextNotes);
    DropCounts(ms, RefreshTags(workingMemory), m);
    InsertCounts(kept, r.contextNotes, m);
    DropCounts(shown, {Reminder}, m);
    hide Drop, InsertNotes;
  }

  /** After a compaction the pinned notes are there once, if there are any, and all else is as compacted. */
  lemma RepinMeans(ms: seq<Message>, pinned: bool, m: Message)
    ensures multiset(Repinned(ms, pinned))[m]
            == if m.tag != Pinned then multiset(ms)[m] else if pinned && m.Note? then 1 else 0
  {
    DropCounts(ms, {Pinned}, m);
    InsertCounts(Drop(ms, {Pinned}), if pinned then [Pinned] else [], m);
  }

  /** An assistant turn that is not executed, closed by one synthetic result per call. */
  function UnexecutedTurn(r: Response): seq<Message> {
    [Assistant(r.tag, r.calls)] + NotExecuted(r.calls)
  }

  function NotExecuted(calls: seq<ToolCall>): seq<Message> {
    seq(|calls|, i requires 0 <= i < |calls| => Reply(Untagged, calls[i].id))
  }

  lemma {:induction false} RepliesAnswer(ids: seq<string>, ms: seq<Message>)
    requires |ms| == |ids| && forall i :: 0 <= i < |ids| ==> ms[i] == Reply(Untagged, ids[i])
    ensures ScanFrom(Open(multiset(ids)), ms) == Open(multiset{})
    decreases |ids|
  {
    if ids == [] {
    } else {
      assert ids == [ids[0]] + ids[1..];
      assert ms == [ms[0]] + ms[1..];
      var p := Open(multiset(ids));
      ScanAppend(p, [ms[0]], ms[1..]);
      ScanOne(p, ms[0]);
      assert multiset(ids) - multiset{ids[0]} == multiset(ids[1..]);
      RepliesAnswer(ids[1..], ms[1..]);
    }
  }

  lemma UnexecutedTurnCloses(ms: seq<Message>, r: Response)
    requires Closed(ms)
    ensures Closed(ms + UnexecutedTurn(r))
  {
    var a, replies := Assistant(r.tag, r.calls), NotExecuted(r.calls);
    assert ms + UnexecutedTurn(r) == (ms + [a]) + replies;
    ScanAppend(Open(multiset{}), ms + [a], replies);
    ScanPush(ms, a);
    RepliesAnswer(Ids(r.calls), replies);
  }

  /** In the middle of a batch: the calls in `rest` still wait for their results. */
  ghost predicate BatchHistory(ms: seq<Message>, rest: seq<ToolCall>) {
    Scan(ms) == Open(multiset(Ids(rest))) && DistinctTurns(ms) && ProtocolUntagged(ms)
  }

  lemma TurnOpensBatch(ms: seq<Message>, calls: seq<ToolCall>)
    requires ClosedHistory(ms) && DistinctIds(calls)
    ensures BatchHistory(ms + [Assistant(Untagged, calls)], calls)
  {
    ScanPush(ms, Assistant(Untagged, calls));
  }

  lemma SurroundedReply(ms: seq<Message>, pre: seq<Message>, reply: Message, post: seq<Message>)
    requires AllNotes(pre) && AllNotes(post)
    ensures Scan(ms + (pre + [reply] + post)) == Step(Scan(ms), reply)
  {
    var start := Open(multiset{});
    assert ms + (pre + [reply] + post) == ((ms + pre) + [reply]) + post;
    ScanAppend(start, ms, pre);
    NotesKeepPending(Scan(ms), pre);
    ScanPush(ms + pre, reply);
    ScanAppend(start, (ms + pre) + [reply], post);
    NotesKeepPending(Scan((ms + pre) + [reply]), post);
  }

  lemma ReplyKeepsBatch(ms: seq<Message>, rest: seq<ToolCall>, pre: seq<Message>, post: seq<Message>)
    requires rest != [] && BatchHistory(ms, rest) && AllNotes(pre) && AllNotes(post)
    ensures BatchHistory(ms + (pre + [Reply(Untagged, rest[0].id)] + post), rest[1..])
  {
    SurroundedReply(ms, pre, Reply(Untagged, rest[0].id), post);
    IdsTail(rest);
  }

  lemma IdsTail(calls: seq<ToolCall>)
    requires calls != []
    ensures calls[0].id in multiset(Ids(calls)) && multiset(Ids(calls)) - multiset{calls[0].id} == multiset(Ids(calls[1..]))
  {
    assert Ids(calls) == [calls[0].id] + Ids(calls[1..]);
  }

  lemma ResultKeepsBatch(ms: seq<Message>, rest: seq<ToolCall>, n: Notes, success: bool, progress: Progress)
    requires rest != [] && BatchHistory(ms, rest)
    ensures BatchHistory(ms + ResultMessages(n, rest[0], success, Untagged, progress), rest[1..])
  {
    ReplyKeepsBatch(ms, rest, if progress == Recover then [Note(Untagged)] else [],
                    if Nudged(Observe(n, rest[0], success)) then [Note(Untagged)] else []);
  }

  // ----- transitions -------------------------------------------------------------------------

  function Counted(s: AgentState, tc: ToolCall, success: bool): AgentState {
    var used := s.(toolCallsUsed := s.toolCallsUsed + 1);
    if tc.name == RUN_TESTS
    then used.(testRuns := s.testRuns + 1, testResults := s.testResults + [TestResult(tc.target, success)],
               phase := if success then Verifying else Reflecting)
    else used
  }

  lemma TestsInPush(log: seq<CallOutcome>, tc: ToolCall, success: bool)
    ensures TestsIn(log + [CallOutcome(tc, success)])
            == TestsIn(log) + if tc.name == RUN_TESTS then [TestResult(tc.target, success)] else []
  {
    assert (log + [CallOutcome(tc, success)])[..|log|] == log;
  }

  predicate SameLimits(s: AgentState, t: AgentState) {
    s.maxIterations == t.maxIterations && s.maxToolCalls == t.maxToolCalls && s.maxTestRuns == t.maxTestRuns
  }

  /** What one consumed tool result adds to the history: its reply, and engine notes around it. */
  function ResultMessages(n: Notes, tc: ToolCall, success: bool, tag: Tag, progress: Progress): seq<Message> {
    (if progress == Recover then [Note(Untagged)] else [])
    + [Reply(tag, tc.id)]
    + (if Nudged(Observe(n, tc, success)) then [Note(Untagged)] else [])
  }

  /** One consumed tool result. */
  function Consumed(c: Core, tc: ToolCall, success: bool, tag: Tag, progress: Progress): Core {
    var counted := Counted(c.state, tc, success);
    var notes := AfterCall(c.notes, tc, success);
    var outcomes := if tc.name == RUN_TESTS then c.outcomes[tc.target := success] else c.outcomes;
    Core(counted.(messages := c.state.messages + ResultMessages(c.notes, tc, success, tag, progress),
                  phase := if notes.repeated >= STAGNATION_ABORT then Failed else counted.phase),
         c.metrics.(toolCalls := c.metrics.toolCalls + 1),
         notes, outcomes, AllPassed(outcomes),
         c.log + [CallOutcome(tc, success)],
         NudgesAfter(c.nudges, c.notes, tc, success, |c.log| + 1), c.traced)
  }

  datatype BatchEnd = Finished(noProgress: bool) | Aborted | QuotaInTool | BlockedInTool

  /** Consumes the calls from index k on, in order, until one of them cuts the batch short. */
  function RunCalls(c: Core, calls: seq<ToolCall>, tools: nat -> ToolStep, k: nat, noProgress: bool): (Core, BatchEnd)
    requires k <= |calls|
    decreases |calls| - k
  {
    if k == |calls| then (c, Finished(noProgress))
    else match tools(k)
      case QuotaDuringTool => (c, QuotaInTool)
      case BlockedDuringTool => (c, BlockedInTool)
      case Ran(success, tag, progress) =>
        var d := Consumed(c, calls[k], success, tag, progress);
        if d.notes.repeated >= STAGNATION_ABORT then (d, Aborted)
        else RunCalls(d, calls, tools, k + 1, noProgress || progress == Stop)
  }

  lemma ConsumedStaysLive(c: Core, tc: ToolCall, success: bool, tag: Tag, progress: Progress)
    requires Running(c) && c.state.toolCallsUsed < c.state.maxToolCalls
    requires tc.name == RUN_TESTS ==> c.state.testRuns < c.state.maxTestRuns
    ensures var d := Consumed(c, tc, success, tag, progress);
            Live(d) && (d.notes.repeated < STAGNATION_ABORT ==> Running(d))
  {
    if c.traced {
      CallKeepsStreak(c.notes, c.log, c.nudges, tc, success);
    }
    TestsInPush(c.log, tc, success);
    if tc.name == RUN_TESTS {
      var r := TestResult(tc.target, success);
      assert (c.state.testResults + [r])[..|c.state.testResults|] == c.state.testResults;
    }
    hide StreakTracked, FailStreak, Signature;
  }

  /** What a batch leaves alone. */
  predicate SameRound(c: Core, d: Core) {
    && d.state.iteration == c.state.iteration
    && SameLimits(d.state, c.state)
    && d.state.toolCalls == c.state.toolCalls
    && d.metrics.modelCalls == c.metrics.modelCalls
    && d.notes.summaryCalls == c.notes.summaryCalls
    && d.state.toolCallsUsed - |d.log| == c.state.toolCallsUsed - |c.log|
  }

  /** Within the budgets the rest of the batch was admitted with. */
  ghost predicate Admitted(c: Core, calls: seq<ToolCall>, k: nat)
    requires k <= |calls|
  {
    && c.state.toolCallsUsed + |calls| - k <= c.state.maxToolCalls
    && c.state.testRuns + TestCount(calls[k..]) <= c.state.maxTestRuns
  }

  lemma ConsumedKeepsBatch(c: Core, calls: seq<ToolCall>, r: Round, k: nat, orderly: bool)
    requires k < |calls| && Running(c) && Admitted(c, calls, k) && r.tools(k).Ran?
    requires orderly ==> Orderly(r) && BatchHistory(c.state.messages, calls[k..])
    ensures var d := Consumed(c, calls[k], r.tools(k).success, r.tools(k).tag, r.tools(k).progress);
            && Live(d) && (d.notes.repeated < STAGNATION_ABORT ==> Running(d))
            && SameRound(c, d) && Admitted(d, calls, k + 1)
            && c.log <= d.log && |d.log| == |c.log| + 1
            && (orderly ==> BatchHistory(d.state.messages, calls[k + 1..]))
  {
    hide TellsItsEvents, LatestOutcomes, AllPassed;
    var tc := calls[k];
    var Ran(success, tag, progress) := r.tools(k);
    assert calls[k..][0] == tc && calls[k..][1..] == calls[k + 1..];
    ConsumedStaysLive(c, tc, success, tag, progress);
    if orderly {
      ResultKeepsBatch(c.state.messages, calls[k..], c.notes, success, progress);
    }
  }

  lemma {:induction false} RunCallsKeeps(c: Core, calls: seq<ToolCall>, r: Round, k: nat, noProgress: bool, orderly: bool)
    requires k <= |calls| && Running(c) && Admitted(c, calls, k)
    requires orderly ==> Orderly(r) && BatchHistory(c.state.messages, calls[k..])
    ensures var (d, end) := RunCalls(c, calls, r.tools, k, noProgress);
            && Live(d) && SameRound(c, d) && c.log <= d.log
            && (end.Finished? ==> Running(d) && |d.log| == |c.log| + |calls| - k)
            && (end.Finished? && orderly ==> ClosedHistory(d.state.messages))
    decreases |calls| - k
  {
    if k == |calls| {
      assert calls[k..] == [] && Ids([]) == [];
    } else if r.tools(k).Ran? {
      ConsumedKeepsBatch(c, calls, r, k, orderly);
      var d := Consumed(c, calls[k], r.tools(k).success, r.tools(k).tag, r.tools(k).progress);
      if d.notes.repeated < STAGNATION_ABORT {
        RunCallsKeeps(d, calls, r, k + 1, noProgress || r.tools(k).progress == Stop, orderly);
      }
    }
  }

  /** The calls from index k up to n, with the outcomes that their tools gave. */
  function Consumption(calls: seq<ToolCall>, tools: nat -> ToolStep, k: nat, n: nat): seq<CallOutcome>
    requires k <= n <= |calls|
  {
    seq(n - k, j requires 0 <= j < n - k => CallOutcome(calls[k + j], tools(k + j).Ran? && tools(k + j).success))
  }

  predicate AsksToStop(step: ToolStep) {
    step.Ran? && step.progress == Stop
  }

  /** A batch ends where a tool does not run, where the failures have repeated too often, or after its last call; then it is
      without progress exactly if one of its tools, or one before them, asked to stop. */
  ghost predicate EndsAt(calls: seq<ToolCall>, tools: nat -> ToolStep, k: nat, n: nat, earlier: bool, end: BatchEnd) {
    match end
    case QuotaInTool => n < |calls| && tools(n).QuotaDuringTool?
    case BlockedInTool => n < |calls| && tools(n).BlockedDuringTool?
    case Aborted => k < n
    case Finished(noProgress) => n == |calls| && (noProgress <==> earlier || exists j :: k <= j < n && AsksToStop(tools(j)))
  }

  lemma AbortEndsHere(calls: seq<ToolCall>, tools: nat -> ToolStep, k: nat, n: nat, earlier: bool)
    requires k < n
    ensures EndsAt(calls, tools, k, n, earlier, Aborted)
  {
  }

  lemma EndsAfterFirst(calls: seq<ToolCall>, tools: nat -> ToolStep, k: nat, n: nat, earlier: bool, end: BatchEnd)
    requires k < n && EndsAt(calls, tools, k + 1, n, earlier || AsksToStop(tools(k)), end)
    ensures EndsAt(calls, tools, k, n, earlier, end)
  {
  }

  /** The calls up to n ran, and none but the last of them was the one too many that failed alike. */
  ghost predicate ConsumedUpTo(before: seq<CallOutcome>, calls: seq<ToolCall>, tools: nat -> ToolStep, k: nat, n: nat,
                               after: seq<CallOutcome>)
    requires k <= n <= |calls|
  {
    && (forall j :: k <= j < n ==> tools(j).Ran?)
    && after == before + Consumption(calls, tools, k, n)
    && (forall m :: |before| < m < |after| ==> FailStreak(after[..m]) < STAGNATION_ABORT)
  }

  lemma NoneConsumed(log: seq<CallOutcome>, calls: seq<ToolCall>, tools: nat -> ToolStep, k: nat)
    requires k <= |calls|
    ensures ConsumedUpTo(log, calls, tools, k, k, log)
  {
    assert Consumption(calls, tools, k, k) == [];
  }

  /** One call, and what the calls after it do. */
  lemma FirstThenRest(before: seq<CallOutcome>, calls: seq<ToolCall>, tools: nat -> ToolStep, k: nat, n: nat,
                      after: seq<CallOutcome>)
    requires k < n <= |calls| && tools(k).Ran?
    requires ConsumedUpTo(before + [CallOutcome(calls[k], tools(k).success)], calls, tools, k + 1, n, after)
    requires n > k + 1 ==> FailStreak(before + [CallOutcome(calls[k], tools(k).success)]) < STAGNATION_ABORT
    ensures ConsumedUpTo(before, calls, tools, k, n, after)
  {
    var first, rest := CallOutcome(calls[k], tools(k).success), Consumption(calls, tools, k + 1, n);
    assert Consumption(calls, tools, k, n) == [first] + rest;
    hide Consumption, FailStreak;
    assert before + ([first] + rest) == (before + [first]) + rest;
    assert after[..|before| + 1] == before + [first];
  }

  lemma ConsumedIsLogged(c: Core, tc: ToolCall, success: bool, tag: Tag, progress: Progress)
    requires c.traced && Live(Consumed(c, tc, success, tag, progress))
    ensures var d := Consumed(c, tc, success, tag, progress);
            d.log == c.log + [CallOutcome(tc, success)] && d.notes.repeated == FailStreak(d.log)
  {
    hide TestsIn, LatestOutcomes, AllPassed, FailStreak, NeverPastAbort;
  }

  /** Exactly which calls of a batch run, and why the next one does not. */
  lemma {:induction false} BatchRunsTo(c: Core, calls: seq<ToolCall>, r: Round, k: nat, earlier: bool) returns (n: nat)
    requires k <= |calls| && Running(c) && Admitted(c, calls, k) && c.traced
    ensures k <= n <= |calls|
    ensures var (d, end) := RunCalls(c, calls, r.tools, k, earlier);
            && ConsumedUpTo(c.log, calls, r.tools, k, n, d.log) && EndsAt(calls, r.tools, k, n, earlier, end)
            && (end.Aborted? <==> n > k && FailStreak(d.log) >= STAGNATION_ABORT)
    decreases |calls| - k
  {
    n := k;
    if k < |calls| && r.tools(k).Ran? {
      ConsumedKeepsBatch(c, calls, r, k, false);
      var Ran(success, tag, progress) := r.tools(k);
      var d := Consumed(c, calls[k], success, tag, progress);
      ConsumedIsLogged(c, calls[k], success, tag, progress);
      n := k + 1;
      hide Consumed, Live, Admitted, ConsumedUpTo, FailStreak, EndsAt;
      NoneConsumed(d.log, calls, r.tools, n);
      if d.notes.repeated < STAGNATION_ABORT {
        n := BatchRunsTo(d, calls, r, k + 1, earlier || progress == Stop);
        EndsAfterFirst(calls, r.tools, k, n, earlier, RunCalls(c, calls, r.tools, k, earlier).1);
      } else {
        AbortEndsHere(calls, r.tools, k, n, earlier);
      }
      FirstThenRest(c.log, calls, r.tools, k, n, RunCalls(c, calls, r.tools, k, earlier).0.log);
    } else {
      NoneConsumed(c.log, calls, r.tools, k);
    }
  }

  /** An admitted batch: the assistant turn is recorded before any of its calls runs. */
  function OpenTurn(c: Core, messages: seq<Message>, tag: Tag, calls: seq<ToolCall>): Core {
    c.(state := c.state.(messages := messages + [Assistant(tag, calls)], toolCalls := c.state.toolCalls + calls))
  }

  lemma OpenTurnAdmits(c: Core, messages: seq<Message>, calls: seq<ToolCall>, r: Round, orderly: bool)
    requires Running(c) && DistinctIds(calls) && Admitted(c, calls, 0) && r.generation.Generated?
    requires orderly ==> Orderly(r) && ClosedHistory(messages)
    ensures var start := OpenTurn(c, messages, r.generation.response.tag, calls);
            && Running(start) && Admitted(start, calls, 0)
            && (orderly ==> BatchHistory(start.state.messages, calls))
  {
    if orderly {
      TurnOpensBatch(messages, calls);
    }
  }

  lemma ClosedBatchIsBoundary(c: Core, calls: seq<ToolCall>, d: Core, orderly: bool)
    requires c.metrics.toolCalls == c.state.toolCallsUsed && |c.state.toolCalls| == c.state.toolCallsUsed + |calls|
    requires c.metrics.modelCalls == c.state.iteration + c.notes.summaryCalls
    requires SameRound(c, d) && Running(d) && |d.log| == |c.log| + |calls|
    requires orderly ==> ClosedHistory(d.state.messages)
    ensures Boundary(d, orderly) && GoodCheckpoint(d, orderly)
  {
  }

  /** The round's bookkeeping once the model has replied. */
  function Replied(c: Core): Core {
    c.(state := c.state.(iteration := c.state.iteration + 1),
       metrics := c.metrics.(modelCalls := c.metrics.modelCalls + 1))
  }

  lemma RepliedAgrees(c: Core, orderly: bool)
    requires Boundary(c, orderly) && c.state.iteration < c.state.maxIterations
    ensures Boundary(Replied(c), orderly)
  {
  }

  /** A refusal or a truncated reply: recorded, closed, never executed, and terminal. */
  function Unexecuted(c: Core, messages: seq<Message>, r: Response): Core {
    c.(state := c.state.(messages := messages + UnexecutedTurn(r), phase := Failed))
  }

  lemma UnexecutedIsGood(c: Core, messages: seq<Message>, r: Response, orderly: bool)
    requires Boundary(c, orderly)
    requires orderly ==> ClosedHistory(messages)
    ensures GoodCheckpoint(Unexecuted(c, messages, r), orderly)
  {
    if orderly {
      UnexecutedTurnCloses(messages, r);
    }
  }

  /** A final reply that is not accepted yet: one more recovery strategy is requested. */
  function Recovering(c: Core, messages: seq<Message>, tag: Tag): Core {
    c.(state := c.state.(messages := messages + [Assistant(tag, [])] + [Note(Untagged)]),
       notes := c.notes.(strategyAttempts := c.notes.strategyAttempts + 1))
  }

  lemma RecoveringIsBoundary(c: Core, messages: seq<Message>, tag: Tag, orderly: bool)
    requires Boundary(c, orderly)
    requires orderly ==> ClosedHistory(messages) && tag == Untagged
    ensures Boundary(Recovering(c, messages, tag), orderly)
    ensures Recovering(c, messages, tag).notes.strategyAttempts == c.notes.strategyAttempts + 1
  {
    if orderly {
      ScanPush(messages, Assistant(tag, []));
      assert Ids([]) == [];
      NoteKeepsHistory(messages + [Assistant(tag, [])], Untagged);
    }
  }

  /** Compaction replaces the history; a summary costs one model call that is booked separately. */
  function AfterCompaction(c: Core, summarized: bool): Core {
    if summarized
    then c.(metrics := c.metrics.(modelCalls := c.metrics.modelCalls + 1),
            notes := c.notes.(summaryCalls := c.notes.summaryCalls + 1))
    else c
  }

  lemma CompactionIsBoundary(c: Core, summarized: bool, messages: seq<Message>, orderly: bool)
    requires Boundary(c, orderly)
    requires orderly ==> ClosedHistory(messages)
    ensures Boundary(AfterCompaction(c, summarized), orderly)
    ensures var d := AfterCompaction(c, summarized); Boundary(d.(state := d.state.(messages := messages)), orderly)
  {
  }

  // ----- the exact result of a round ---------------------------------------------------------

  /** The messages a round works with: the refreshed history, or the compacted one with its pinned notes. */
  function Presented(c: Core, r: Round, workingMemory: bool): seq<Message> {
    match r.compaction
    case Compacted(compacted, _, pinned, _) => Repinned(compacted, pinned)
    case _ => Refreshed(c.state.messages, r, c.state.iteration, workingMemory)
  }

  function Prepared(c: Core, r: Round, workingMemory: bool): (Core, Option<Exit>) {
    match r.compaction
    case NotNeeded => (c, None)
    case QuotaDuringCompaction => (c, Some(QuotaExit))
    case Compacted(_, summarized, _, stop) =>
      var d := AfterCompaction(c, summarized);
      if stop then (d, Some(BlockedExit))
      else (d.(state := d.state.(messages := Presented(c, r, workingMemory))), None)
  }

  /** A reply without calls is sent back while it leaves work open and a further strategy is allowed. */
  predicate SentBack(c: Core, response: Response, strategyLimit: nat) {
    && (response.incomplete || response.outstanding || !c.testsPassed)
    && !response.protectedStop
    && c.notes.strategyAttempts < strategyLimit
    && c.state.iteration < c.state.maxIterations
  }

  function FinalOutcome(c: Core, response: Response, strategyLimit: nat, messages: seq<Message>): (Core, Option<Exit>) {
    if SentBack(c, response, strategyLimit) then (Recovering(c, messages, response.tag), None)
    else
      var shown := c.(state := c.state.(messages := messages + [Assistant(response.tag, [])]));
      if response.incomplete || response.outstanding then (shown, Some(FailedExit))
      else if c.testsPassed then (shown.(state := shown.state.(phase := Done)), Some(Completed))
      else (shown.(state := shown.state.(phase := Failed)), Some(FailedExit))
  }

  /** A batch runs only if its ids are distinct and all of it fits into both budgets. */
  ghost predicate Admissible(c: Core, calls: seq<ToolCall>) {
    DistinctIds(calls) && Admitted(c, calls, 0)
  }

  function ExitOf(end: BatchEnd): Option<Exit> {
    match end
    case Finished(noProgress) => if noProgress then Some(BlockedExit) else None
    case Aborted => Some(FailedExit)
    case QuotaInTool => Some(QuotaExit)
    case BlockedInTool => Some(RaisedBlocked)
  }

  function BatchOutcome(c: Core, calls: seq<ToolCall>, r: Round, tag: Tag, messages: seq<Message>): (Core, BatchEnd) {
    RunCalls(OpenTurn(c, messages, tag, calls), calls, r.tools, 0, false)
  }

  ghost function ReplyOutcome(c: Core, r: Round, messages: seq<Message>): (Core, Option<Exit>)
    requires r.generation.Generated?
  {
    var response := r.generation.response;
    if response.refused then (Unexecuted(c, messages, response), Some(BlockedExit))
    else if response.truncated then (Unexecuted(c, messages, response), Some(FailedExit))
    else if response.repaired == [] then FinalOutcome(c, response, r.strategyLimit, messages)
    else if !Admissible(c, response.repaired) then (c, Some(FailedExit))
    else
      var (d, end) := BatchOutcome(c, response.repaired, r, response.tag, messages);
      (d, ExitOf(end))
  }

  ghost function GenerationOutcome(c: Core, r: Round, messages: seq<Message>): (Core, Option<Exit>) {
    var asked := c.(state := c.state.(iteration := c.state.iteration + 1));
    match r.generation
    case QuotaDuringGeneration => (c.(state := c.state.(messages := messages)), Some(QuotaExit))
    case BlockedDuringGeneration => (asked, Some(RaisedBlocked))
    case GenerationFailed => (asked.(state := asked.state.(phase := Failed)), Some(FailedExit))
    case Generated(_) => ReplyOutcome(Replied(c), r, messages)
  }

  /** What one iteration of the loop makes of a live state: the reference that the methods of the loop meet. */
  ghost function RoundOutcome(c: Core, r: Round, workingMemory: bool): (Core, Option<Exit>) {
    var (d, stop) := Prepared(c, r, workingMemory);
    if stop != None then (d, stop)
    else if r.overBudget then (d.(state := d.state.(phase := Failed)), Some(FailedExit))
    else GenerationOutcome(d, r, Presented(c, r, workingMemory))
  }

  // ----- what a round books ------------------------------------------------------------------

  /** What a round asked of the model, and what it made of a reply without calls. */
  datatype Tally = Tally(replies: nat, summaries: nat, sentBack: nat)

  function Sum(a: Tally, b: Tally): Tally {
    Tally(a.replies + b.replies, a.summaries + b.summaries, a.sentBack + b.sentBack)
  }

  /** The round gets as far as asking the model. */
  predicate AsksModel(r: Round) {
    !r.compaction.QuotaDuringCompaction? && !(r.compaction.Compacted? && r.compaction.stop) && !r.overBudget
  }

  predicate IsAnswered(r: Round) {
    AsksModel(r) && r.generation.Generated?
  }

  predicate OffersResult(r: Round) {
    IsAnswered(r) && r.generation.response.repaired == []
    && !r.generation.response.refused && !r.generation.response.truncated
  }

  function RoundTally(r: Round, next: Option<Exit>): Tally {
    Tally(if IsAnswered(r) then 1 else 0,
          if r.compaction.Compacted? && r.compaction.summarized then 1 else 0,
          if OffersResult(r) && next == None then 1 else 0)
  }

  /** What was booked before, and what it was booked for. */
  predicate Books(c: Core, t: Tally, d: Core) {
    && d.metrics.modelCalls == c.metrics.modelCalls + t.replies + t.summaries
    && d.notes.summaryCalls == c.notes.summaryCalls + t.summaries
    && d.notes.strategyAttempts == c.notes.strategyAttempts + t.sentBack
  }

  lemma {:induction false} RunCallsBooksNothing(c: Core, calls: seq<ToolCall>, tools: nat -> ToolStep, k: nat, earlier: bool)
    requires k <= |calls|
    ensures Books(c, Tally(0, 0, 0), RunCalls(c, calls, tools, k, earlier).0)
    ensures RunCalls(c, calls, tools, k, earlier).0.state.iteration == c.state.iteration
    ensures SameLimits(RunCalls(c, calls, tools, k, earlier).0.state, c.state)
    decreases |calls| - k
  {
    if k < |calls| && tools(k).Ran? {
      var d := Consumed(c, calls[k], tools(k).success, tools(k).tag, tools(k).progress);
      if d.notes.repeated < STAGNATION_ABORT {
        RunCallsBooksNothing(d, calls, tools, k + 1, earlier || tools(k).progress == Stop);
      }
    }
  }

  lemma PreparedIsBooked(c: Core, r: Round, workingMemory: bool)
    ensures var (d, stop) := Prepared(c, r, workingMemory);
            && Books(c, Tally(0, RoundTally(r, None).summaries, 0), d)
            && d.state == c.state.(messages := d.state.messages) && d.testsPassed == c.testsPassed
            && (stop == None <==> AsksModel(r.(overBudget := false)))
  {
    hide Presented;
  }

  lemma ReplyIsBooked(c: Core, r: Round, messages: seq<Message>)
    requires IsAnswered(r)
    ensures var (d, next) := ReplyOutcome(c, r, messages);
            && Books(c, Tally(0, 0, if OffersResult(r) && next == None then 1 else 0), d)
            && SameLimits(d.state, c.state) && d.state.iteration == c.state.iteration
            && (OffersResult(r) ==>
                  (next == None <==>
                    && (r.generation.response.incomplete || r.generation.response.outstanding || !c.testsPassed)
                    && !r.generation.response.protectedStop
                    && c.notes.strategyAttempts < r.strategyLimit && c.state.iteration < c.state.maxIterations))
  {
    var response := r.generation.response;
    RunCallsBooksNothing(OpenTurn(c, messages, response.tag, response.repaired), response.repaired, r.tools, 0, false);
    hide RunCalls, UnexecutedTurn, Admissible;
  }

  /** Every reply and every summary is booked as one call of the model, and every reply sent back as one attempt. A reply
      without calls is sent back exactly if it leaves work open, is no protected stop, and attempts and iterations are
      left. */
  lemma RoundIsBooked(c: Core, r: Round, workingMemory: bool)
    ensures var (d, next) := RoundOutcome(c, r, workingMemory);
            && Books(c, RoundTally(r, next), d) && SameLimits(d.state, c.state)
            && d.state.iteration == c.state.iteration
                                    + (if AsksModel(r) && !r.generation.QuotaDuringGeneration? then 1 else 0)
            && (next == None ==> IsAnswered(r))
            && (OffersResult(r) ==>
                  (next == None <==>
                    && (r.generation.response.incomplete || r.generation.response.outstanding || !c.testsPassed)
                    && !r.generation.response.protectedStop
                    && c.notes.strategyAttempts < r.strategyLimit && c.state.iteration + 1 < c.state.maxIterations))
  {
    PreparedIsBooked(c, r, workingMemory);
    hide Presented, ReplyOutcome, Prepared;
    if IsAnswered(r) {
      ReplyIsBooked(Replied(Prepared(c, r, workingMemory).0), r, Presented(c, r, workingMemory));
    }
  }

  /** The loop from iteration i on. Only the first round of a resumed run keeps the restored working memory. */
  ghost function LoopOutcome(c: Core, env: nat -> Round, resumed: bool, first: nat, i: nat, end: nat): (Core, Exit)
    decreases end - i
  {
    if i >= end then (c.(state := c.state.(phase := Failed)), FailedExit)
    else
      var (d, next) := RoundOutcome(c, env(i), !(resumed && i == first));
      if next == None then LoopOutcome(d, env, resumed, first, i + 1, end) else (d, next.value)
  }

  /** What the rounds of the loop ask of the model. */
  ghost function LoopTally(c: Core, env: nat -> Round, resumed: bool, first: nat, i: nat, end: nat): Tally
    decreases end - i
  {
    if i >= end then Tally(0, 0, 0)
    else
      var (d, next) := RoundOutcome(c, env(i), !(resumed && i == first));
      if next != None then RoundTally(env(i), next)
      else Sum(RoundTally(env(i), next), LoopTally(d, env, resumed, first, i + 1, end))
  }

  lemma BooksNothing(c: Core)
    ensures Books(c, Tally(0, 0, 0), c.(state := c.state.(phase := Failed)))
  {
  }

  lemma BooksSum(c: Core, t: Tally, d: Core, u: Tally, e: Core)
    requires Books(c, t, d) && Books(d, u, e)
    ensures Books(c, Sum(t, u), e)
  {
  }

  /** All of it is booked. */
  lemma {:induction false} LoopIsBooked(c: Core, env: nat -> Round, resumed: bool, first: nat, i: nat, end: nat)
    ensures Books(c, LoopTally(c, env, resumed, first, i, end), LoopOutcome(c, env, resumed, first, i, end).0)
    decreases end - i
  {
    hide Books, RoundOutcome, RoundTally;
    if i >= end {
      BooksNothing(c);
    } else {
      RoundIsBooked(c, env(i), !(resumed && i == first));
      var (d, next) := RoundOutcome(c, env(i), !(resumed && i == first));
      if next == None {
        LoopIsBooked(d, env, resumed, first, i + 1, end);
        BooksSum(c, RoundTally(env(i), next), d, LoopTally(d, env, resumed, first, i + 1, end),
                 LoopOutcome(d, env, resumed, first, i + 1, end).0);
      }
    }
  }

  /** The replies sent back, with the attempts booked before, are not more than the largest limit offered. */
  lemma {:induction false} RecoveryIsLimited(c: Core, env: nat -> Round, resumed: bool, first: nat, i: nat, end: nat,
                                             limit: nat)
    requires forall j :: i <= j < end ==> env(j).strategyLimit <= limit
    requires c.notes.strategyAttempts <= limit
    ensures c.notes.strategyAttempts + LoopTally(c, env, resumed, first, i, end).sentBack <= limit
    decreases end - i
  {
    if i < end {
      RoundIsBooked(c, env(i), !(resumed && i == first));
      var (d, next) := RoundOutcome(c, env(i), !(resumed && i == first));
      hide RoundOutcome, IsAnswered, OffersResult;
      if next == None {
        RecoveryIsLimited(d, env, resumed, first, i + 1, end, limit);
      }
    }
  }

  /** A pause and an error leave the state as it is; every other exit records its terminal phase. */
  function Concluded(c: Core, exit: Exit): Core {
    if exit in {QuotaExit, RaisedBlocked} then c
    else c.(state := c.state.(phase := if exit == Completed then Done else Failed))
  }

  /** What a whole run makes of the state it starts from. */
  ghost function RunOutcome(c: Core, env: nat -> Round, resumed: bool): (Core, Exit) {
    var (d, exit) := LoopOutcome(c, env, resumed, c.state.iteration, c.state.iteration, c.state.maxIterations);
    (Concluded(d, exit), exit)
  }

  ghost function RunTally(c: Core, env: nat -> Round, resumed: bool): Tally {
    LoopTally(c, env, resumed, c.state.iteration, c.state.iteration, c.state.maxIterations)
  }

  /** A whole run: every reply and every summary is booked as one call of the model, every reply sent back as one attempt at
      recovery. The attempts never exceed the largest limit that a round offered, unless there were more to begin with, and
      then no reply is sent back. */
  lemma RunIsBooked(c: Core, env: nat -> Round, resumed: bool, limit: nat)
    requires forall i :: c.state.iteration <= i < c.state.maxIterations ==> env(i).strategyLimit <= limit
    ensures Books(c, RunTally(c, env, resumed), RunOutcome(c, env, resumed).0)
    ensures c.notes.strategyAttempts <= limit ==> c.notes.strategyAttempts + RunTally(c, env, resumed).sentBack <= limit
    ensures c.notes.strategyAttempts >= limit ==> RunTally(c, env, resumed).sentBack == 0
  {
    hide LoopOutcome, LoopTally;
    var first, end := c.state.iteration, c.state.maxIterations;
    LoopIsBooked(c, env, resumed, first, first, end);
    RecoveryIsLimited(c, env, resumed, first, first, end,
                      if c.notes.strategyAttempts <= limit then limit else c.notes.strategyAttempts);
  }

  // ----- completion and resumption -----------------------------------------------------------

  /** The completion verdict of a run: every target's latest run passed and the accepted reply left no
      prerequisite open. */
  ghost predicate SoundCompletion(c: Core, last: Round) {
    && LatestRunsPassed(c.state.testResults) && (c.traced ==> c.state.testResults == TestsIn(c.log))
    && last.generation.Generated?
    && !last.generation.response.incomplete
    && !last.generation.response.outstanding
  }

  lemma CompletionIsSound(c: Core, last: Round)
    requires Live(c) && c.testsPassed && last.generation.Generated?
    requires !last.generation.response.incomplete && !last.generation.response.outstanding
    ensures SoundCompletion(c, last)
  {
    AllPassedMeansLatestRunsPassed(c.state.testResults);
  }

  /** The live state a resumed run builds from a checkpoint, continuing the events emitted before it, if they are known. */
  function Restored(c: Checkpoint, log: seq<CallOutcome>, nudges: set<nat>, traced: bool): Core {
    var outcomes := LatestOutcomes(c.state.testResults);
    Core(c.state, c.metrics, c.notes, outcomes, AllPassed(outcomes), log, nudges, traced)
  }

  /** Nothing is lost: resuming a saved checkpoint gives back exactly the live state it was taken from, including
      the rebuilt outcome map. */
  lemma RestoredIsTheLiveState(c: Core)
    requires Live(c)
    ensures Restored(Saved(c), c.log, c.nudges, c.traced) == c
  {
  }

  /** Validation is all that a checkpoint of unknown origin needs, whatever its streak notes say. */
  lemma ValidationSuffices(c: Checkpoint, log: seq<CallOutcome>, nudges: set<nat>)
    requires Resumable(c)
    ensures GoodCheckpoint(Restored(c, log, nudges, false), ProtocolUntagged(c.state.messages))
    ensures Boundary(Restored(c, log, nudges, false), ProtocolUntagged(c.state.messages))
  {
  }

  // ----- a pause after a refresh -------------------------------------------------------------

  /** The tags that the refresh of a round takes out. */
  function StrippedTags(iteration: nat, workingMemory: bool): set<Tag> {
    RefreshTags(workingMemory) + if (iteration + 1) % 5 == 0 then {Reminder} else {}
  }

  lemma {:induction false} DropTwice(ms: seq<Message>, tags: set<Tag>, more: set<Tag>)
    ensures Drop(Drop(ms, tags), more) == Drop(ms, tags + more)
  {
    if ms != [] {
      DropTwice(ms[1..], tags, more);
      if ms[0].tag !in tags {
        assert ([ms[0]] + Drop(ms[1..], tags))[1..] == Drop(ms[1..], tags);
      }
    }
  }

  /** Inserted notes do not matter to what is open, whether they are dropped again or not. */
  lemma {:induction false} InsertedNotesDoNotMatter(ms: seq<Message>, notes: seq<Tag>, tags: set<Tag>)
    ensures Scan(Drop(InsertNotes(ms, notes), tags)) == Scan(Drop(ms, tags))
    decreases |notes|
  {
    if notes != [] {
      var a, b := ms[..HeadEnd(ms)], ms[HeadEnd(ms)..];
      var note := Drop([Note(notes[0])], tags);
      assert ms == a + b && InsertNote(ms, notes[0]) == (a + [Note(notes[0])]) + b;
      DropAppend(a, b, tags);
      DropAppend(a + [Note(notes[0])], b, tags);
      DropAppend(a, [Note(notes[0])], tags);
      ScanAppend(Open(multiset{}), Drop(a, tags), Drop(b, tags));
      ScanAppend(Open(multiset{}), Drop(a, tags) + note, Drop(b, tags));
      ScanAppend(Open(multiset{}), Drop(a, tags), note);
      NotesKeepPending(Scan(Drop(a, tags)), note);
      InsertedNotesDoNotMatter(InsertNote(ms, notes[0]), notes[1..], tags);
    }
  }

  lemma RefreshedScan(ms: seq<Message>, r: Round, iteration: nat, workingMemory: bool)
    ensures Scan(Refreshed(ms, r, iteration, workingMemory)) == Scan(Drop(ms, StrippedTags(iteration, workingMemory)))
  {
    hide Scan, ScanFrom, Drop, InsertNotes;
    var kept := Drop(ms, RefreshTags(workingMemory));
    var shown := InsertNotes(kept, r.contextNotes);
    if (iteration + 1) % 5 == 0 {
      InsertedNotesDoNotMatter(kept, r.contextNotes, {Reminder});
      DropTwice(ms, RefreshTags(workingMemory), {Reminder});
      ScanPush(Drop(shown, {Reminder}), Note(Reminder));
    } else {
      InsertedNotesDoNotMatter(kept, r.contextNotes, {});
      DropNothing(shown);
      DropNothing(kept);
      assert StrippedTags(iteration, workingMemory) == RefreshTags(workingMemory);
    }
  }

  lemma {:induction false} DropNothing(ms: seq<Message>)
    ensures Drop(ms, {}) == ms
  {
    if ms != [] {
      DropNothing(ms[1..]);
    }
  }

  ghost predicate PausedRound(r: Round) {
    r.compaction.NotNeeded? && !r.overBudget && r.generation.QuotaDuringGeneration?
  }

  /** A round that a quota stop pauses after the refresh, in any state: the saved history is closed exactly if what the
      refresh leaves of the messages is, and if it is not, the checkpoint cannot be resumed. */
  lemma PausedHistoryIsWhatIsLeft(c: Core, r: Round, workingMemory: bool)
    requires PausedRound(r)
    ensures var (d, exit) := RoundOutcome(c, r, workingMemory);
            && exit == Some(QuotaExit)
            && (Closed(d.state.messages) <==> Closed(Drop(c.state.messages, StrippedTags(c.state.iteration, workingMemory))))
            && (!Closed(d.state.messages) ==> !Resumable(Saved(d)))
  {
    RefreshedScan(c.state.messages, r, c.state.iteration, workingMemory);
    hide Refreshed, Drop, Scan;
  }

  /** For a history of whole turns with fresh ids: the pause saves a closed history exactly if the refresh cuts no turn in
      two. */
  lemma PauseSavesClosedIff(c: Core, head: seq<Message>, turns: seq<Turn>, r: Round, workingMemory: bool)
    requires PausedRound(r) && c.state.messages == head + Flatten(turns) && AllNotes(head) && FreshIds(turns)
    requires forall t :: t in turns ==> WellFormedTurn(t)
    ensures var d := RoundOutcome(c, r, workingMemory).0;
            Closed(d.state.messages) <==>
              forall t :: t in turns ==> KeptOrDroppedWhole(t, StrippedTags(c.state.iteration, workingMemory))
  {
    hide RoundOutcome, StrippedTags;
    PausedHistoryIsWhatIsLeft(c, r, workingMemory);
    RefreshClosedIff(head, turns, StrippedTags(c.state.iteration, workingMemory));
  }

  /** Whatever came before: a tool result that starts like working memory is lost, and the pause saves a history that is not
      closed and cannot be resumed. */
  lemma PauseSavesTheOrphanedCall(c: Core, head: seq<Message>, call: ToolCall, r: Round)
    requires PausedRound(r) && c.state.messages == head + [Assistant(Untagged, [call]), Reply(WorkingMemory, call.id)]
    ensures var (d, exit) := RoundOutcome(c, r, true);
            exit == Some(QuotaExit) && !Closed(d.state.messages) && !Resumable(Saved(d))
  {
    hide RoundOutcome, Closed, Drop, Resumable, PausedRound;
    PausedHistoryIsWhatIsLeft(c, r, true);
    LostReplyLeavesACall(head, call, StrippedTags(c.state.iteration, true));
  }

  lemma LostReplyLeavesACall(head: seq<Message>, call: ToolCall, tags: set<Tag>)
    requires WorkingMemory in tags && Untagged !in tags
    ensures !Closed(Drop(head + [Assistant(Untagged, [call]), Reply(WorkingMemory, call.id)], tags))
  {
    var a, reply := Assistant(Untagged, [call]), Reply(WorkingMemory, call.id);
    DropAppend(head, [a, reply], tags);
    assert [a, reply][1..] == [reply] && [reply][1..] == [];
    assert Drop([reply], tags) == [] && Drop([a, reply], tags) == [a];
    hide Drop, Scan;
    ScanPush(Drop(head, tags), a);
    assert Ids([call]) == [call.id] && call.id in multiset{call.id};
  }
}
