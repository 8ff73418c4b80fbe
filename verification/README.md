# Verified models of the agent harness

A Dafny 4.11 model of the parts of the harness that carry its hardest logic, with proofs about every run, every
interleaving or every input. `dafny verify dfyconfig.toml` checks all of it. Nothing was executed.

Code that the program writes as statements over fields or buffers is a class or a method with loops here, proved equal to
a function of the old state or the inputs; the promises are then lemmas about that function. Code that the program
runs on several threads is a state machine over steps, and the sections that hold a lock are methods proved to be the
steps they stand for.

| part of the program | modules | main results |
|---|---|---|
| agent tool loop | `ProtocolHistory`, `LoopState`, `AgentLoop` | every checkpoint of every run and resumed run holds a closed history and agreeing counters within all budgets; the loop equals a reference recursion; every reply, summary and recovery attempt is booked, and attempts never exceed the largest limit offered; a completed run passed every test target on its latest run; a resumed run starts from exactly the live state that was saved |
| data-flow analysis of Python source | `DataFlow`, `DataFlowFacts`, `DataFlowSoundness`, `DataFlowRuns`, `DataFlowRefinement`, `DataFlowMisses`, `DataFlowLimits`, `DataFlowPrograms` | on every path of a program in the fragment, a sink that may receive a value not built from literals is reported unless the cap was reached; exact runs with aliasing refine these paths, and outside the fragment the misses are stated exactly; exactly which expressions count as constant, and what a trace shows |
| job slot and shutdown | `JobSlot`, `Workbench` | at most one job over all interleavings, each acquisition released once, no thread starts after the drain's snapshot, the runtime is never started after the stop flag is set |
| on-device runtime | `RuntimeLifecycle`, `InferenceManager` | a reader gets endpoint and key of the latest worker exactly while it is running; a stop revokes it until the next launch |
| versions and advisories | `SemVer`, `VersionOrder`, `NpmRange`, `OsvRange`, `OsvEvents`, `NpmLock` | the tuple encoding is the precedence of Semantic Versioning 2.0.0; ranges and expressions, as they are written, mean the plain comparisons; intervals equal the scan of the OSV Schema; each dependency goes to its nearest entry or is reported |
| reports and evidence | `Utf8`, `ReportPaths`, `Sarif`, `SarifRoundTrip`, `EvidenceChain` | what every exported and imported field says, exactly which findings survive export and import, and what they keep; a head hash fixes the whole journal |
| bounded byte machines | `TailKeeper`, `JsonDepth`, `InspectionCache`, `GgufFormat`, `GgufInspect`, `GgufMetadata`, `GgufSerialized`, `TokenizerSignature` | independence of chunking, exact ends of values, scanner depth equals grammar nesting, both cache caps at once, round trip of serialized metadata |

## What the outside is assumed to do

- The agent loop takes model replies, tool results, compaction, quota exhaustion and the verdicts of text patterns as
  inputs, one `Round` for each iteration, without restriction. The statements about closed histories need an orderly
  outside (`LoopState.Orderly`): no model or tool text starts with an engine prefix, and compaction returns a closed
  history. The scheduler is taken to yield each call of a batch once, in call order.
- The job slot statements assume that a starter does not fail after its thread has started (`JobSlot.CopiesSucceed`).
- Redaction of secrets is a function that is idempotent, inserts only its mark and leaves the program's own words alone
  (`ReportPaths.Redaction`).
- Digests are any functions with values in lower-case hexadecimal. Nothing is assumed about collisions: the statements say
  that two histories are equal or that two records at hand collide (`EvidenceChain.Collides`).
- The data-flow statements take a sink to be what is called under its documented name: a value that comes from outside, or
  out of an unknown call, is not one of the modules or functions of the rule tables. Values taken out of containers and
  results of unknown calls count as not built from literals.
- Calls do not assign the names of the body analysed. The builtins that can (`exec`, `eval`, `globals`, `locals`, `vars`,
  `setattr`, `builtins`) are outside the fragment; for any other function it is an assumption. The program that fails is
  `x = "ls"; exec("x = input()")` followed by a shell call on x (`DataFlowPrograms.CarriedOutIsMissed`), and
  `DataFlowMisses.CarriedOutIsMissedIff` is the exact condition.
- The exact runs (`DataFlowRuns`) end at a step that they do not follow: subscripts, conditional expressions and other forms
  the analysis knows nothing of, methods other than `append`, `format` and `join`, comprehensions with conditions. A function
  from outside changes at most the containers handed to it.
- Inspecting a file is a function of its path, the kind asked for and the file's identity.

## Where the program does less than one would expect

Each of these is kept as the program has it, with lemmas that give an input and the exact condition.

- The context refresh strips messages of any role by their first words, so a tool result can vanish and leave its call
  unanswered (`RefreshCanOrphanACall`, `PauseSavesTheOrphanedCall`); unless ids are used again, a history stays closed
  exactly if no turn is cut in two (`RefreshClosedIff`, `PauseSavesClosedIff`, `ReusedIdHealsTwoCuts`).
- The data-flow analysis misses a sink whose input has an unlisted keyword (`SinkCallReportedIff`), a shell opened by a
  flag that it does not know to be `True` (`SubprocessCallReportedIff`), a name that counts as constant and that an
  assignment expression, a comprehension or, before a lambda is called, an assignment gives something from outside
  (`AssignmentExpressionIsMissedIff`, `ComprehensionUseIsMissedIff`, `DeferredUseIsMissedIff`), a container that a call has
  reached (`ConstantIsMissedIff`, `AppendIsMissedIff`), the text of a file whose path counts as constant
  (`FileTextIsMissedIff`), and a call through an imported name that some branch has assigned
  (`RebindingHidesTheSinkIff`). The programs, with harmless neighbours, are in `DataFlowPrograms` and `DataFlowLimits`.
- A starter that fails after starting its thread makes an unsafe state reachable, always (`CopiesMustSucceed`), and from
  the start (`TwoJobsAtOnce`).
- Several `limit` events of an OSV range must all hold in the program, where the OSV Schema asks for one
  (`LimitsAgreeIff`, `TwoLimitsDisagree`). The model follows the program.
- An exported finding is refused on import if its quoted path is longer than 2048 characters, if cleaning has left a
  path that is not relative, or if cleaning has made a field longer than its limit (`SarifRoundTrip.Importable`,
  `PathAfterImportIs`, with `LongQuotedPath`, `UncoveredSlashIsRefused` and `LengthenedFieldIsRefused`). A path that begins with "./" after cleaning comes back without it
  (`UncoveredDotsAreLost`).
- A tail limit equal to the label's length bounds nothing (`BoundHoldsIff`); totals of 66 and 67 bytes for two pipes
  reach that case (`TotalTooSmallForTwo`).
- The inspection cache does not tell models from runtimes (`OtherKindIsFreshIff`, `RuntimeIsReadAsModel`).

## Model

| member | source | states |
|---|---|---|
| `ProtocolHistory.ClosedMeansAnsweredExactlyOnce` | src/local_coder/core/runtime.py:262-280 | The running scan with a pending set accepts a history if and only if wherever an assistant turn begins, and at the end, the results received since the previous turn are exactly the calls of that turn, counted with repetition. |
| `ProtocolHistory.ValidateHistory` | src/local_coder/core/runtime.py:262-280 | The history part of the resume check accepts exactly the closed histories whose turns have distinct call ids. |
| `ProtocolHistory.HasDuplicate` | src/local_coder/agents/base.py:863-866 | Tells whether two calls of a response share an id. |
| `ProtocolHistory.RefreshClosedIff` | src/local_coder/agents/base.py:486-500 | The context refresh strips messages by content prefix whatever their role. If no id is used by two turns it keeps a closed history closed exactly when every turn with calls is kept whole or dropped whole. |
| `ProtocolHistory.WholeTurnsStayClosed` | src/local_coder/agents/base.py:486-500 | Keeping or dropping every turn whole keeps the history closed, also where a later turn uses an id again. |
| `ProtocolHistory.ReusedIdHealsTwoCuts` | src/local_coder/agents/base.py:486-500 | With an id used by two turns the other direction fails: two cut turns can leave a closed history. |
| `ProtocolHistory.RefreshCanOrphanACall` | src/local_coder/agents/base.py:486-500 | A tool result that starts with the working-memory prefix is dropped by the refresh, and its call is left unanswered. |
| `LoopState.StreakIsLongestTail` | src/local_coder/agents/base.py:1011-1024 | The failure counter is the length of the longest suffix of identical failing calls, both directions. |
| `LoopState.CallKeepsStreak` | src/local_coder/agents/base.py:1011-1024 | One more consumed call keeps counter, last signature, warning flag and nudge record equal to what the whole list of calls says they are. |
| `LoopState.SignatureTellsCalls` | src/local_coder/agents/base.py:1011-1024 | Two calls count as the same exactly if name and arguments agree, for tool names without a colon. |
| `LoopState.OneNudgePerStreak` | src/local_coder/agents/base.py:1088-1103 | Between two nudges the run of identical failures was broken: one nudge per streak. |
| `LoopState.NeverPastAbortAnywhere` | src/local_coder/agents/base.py:1066-1087 | At no point of any run was a streak longer than the abort threshold. |
| `LoopState.AllPassedMeansLatestRunsPassed` | src/local_coder/agents/base.py:991-1007 | The verdict kept in the outcome map is true exactly when, for every test target, its latest recorded run passed. |
| `LoopState.ValidateResume` | src/local_coder/core/runtime.py:247-281 | The resume validation accepts exactly the checkpoints that are not terminal, within all budgets, with agreeing counters and a closed history. |
| `LoopState.SavedCheckpointsAreResumable` | src/local_coder/agents/base.py:347-394 | In an orderly run every saved history answers each call exactly once before the next turn, and every checkpoint passes the resume validation unless it records a refusal or a truncated reply. |
| `LoopState.RefreshKeepsHistory` | src/local_coder/agents/base.py:647-656 | Stripping stale notes, inserting new ones and the fifth-round reminder keep a closed history closed if only free text carries an engine prefix. |
| `LoopState.RefreshMeans` | src/local_coder/agents/base.py:476-500 | After a refresh each stale engine note is gone, each new one is there once, everything else is still there as often as before, and in every fifth round the reminder is there once, as the last message. |
| `LoopState.PausedHistoryIsWhatIsLeft` | src/local_coder/agents/base.py:645-719 | In any state, for any notes and round number: a round that a quota stop pauses after the refresh saves a closed history exactly if what the refresh leaves of the messages is closed; if not, the checkpoint cannot be resumed. |
| `LoopState.PauseSavesClosedIff` | src/local_coder/agents/base.py:645-719 | For a history of whole turns with fresh ids the pause saves a closed history exactly if the refresh cuts no turn in two. |
| `LoopState.PauseSavesTheOrphanedCall` | src/local_coder/agents/base.py:645-719 | Whatever came before, if the last tool result starts with the working-memory prefix the pause saves a history that is not closed and cannot be resumed. |
| `LoopState.RepinKeepsHistory` | src/local_coder/agents/base.py:1173-1200 | Pinning the notes again after compaction keeps a closed history closed. |
| `LoopState.RepinMeans` | src/local_coder/agents/base.py:1173-1200 | After a compaction the pinned notes are there once, if there are any, and all other messages as the compaction left them. |
| `LoopState.UnexecutedTurnCloses` | src/local_coder/agents/base.py:759-812 | A refused or truncated turn with one synthetic result per call leaves the history closed, also when the model repeats an id. |
| `LoopState.ResultKeepsBatch` | src/local_coder/agents/base.py:1024-1103 | Appending a result, with the engine notes that may surround it, answers exactly the next waiting call. |
| `LoopState.ConsumedKeepsBatch` | src/local_coder/agents/base.py:956-1103 | One consumed result keeps budgets, streak, outcome map and the batch invariant, and uses exactly one of the admitted calls. |
| `LoopState.RunCallsKeeps` | src/local_coder/agents/base.py:955-1104 | A whole batch, wherever it is cut short, keeps the live invariant; a batch that ends normally has consumed every call and closes the history. |
| `LoopState.BatchRunsTo` | src/local_coder/agents/base.py:955-1104 | Exactly which calls of a batch run, with which outcomes in the record, and why the next one does not: a stop by a tool, five identical failures, or the end of the batch; a batch that ends is without progress exactly if one of its tools asked to stop. |
| `LoopState.ClosedBatchIsBoundary` | src/local_coder/agents/base.py:1104-1106 | After the last result of a batch the counters agree and the state may be saved and resumed. |
| `LoopState.UnexecutedIsGood` | src/local_coder/agents/base.py:759-812 | The state saved after a refusal or a truncation is consistent and its history closed. |
| `LoopState.RecoveringIsBoundary` | src/local_coder/agents/base.py:822-850 | Sending a final reply back counts one attempt and keeps a resumable boundary. |
| `LoopState.RoundIsBooked` | src/local_coder/agents/base.py:645-1106 | Every reply and every summary of a round is booked as one model call, and a reply sent back as one attempt; a reply without calls is sent back exactly if it leaves work open, is no protected stop, and attempts and iterations are left. |
| `LoopState.RecoveryIsLimited` | src/local_coder/agents/base.py:822-850 | From any state on, the replies sent back, together with the attempts booked before, never exceed the largest limit that a round offers. |
| `LoopState.RunIsBooked` | src/local_coder/agents/base.py:576-1120 | A whole run: model calls, summaries and attempts at its end are those at its start plus what its rounds asked for; with as many attempts at the start as any round allows, no reply is sent back. |
| `LoopState.CompactionIsBoundary` | src/local_coder/agents/base.py:657-669 | Compaction, with the summary call booked apart from the iterations, keeps a resumable boundary. |
| `LoopState.CompletionIsSound` | src/local_coder/agents/base.py:850-861 | A run that is allowed to complete has every test target passed on its latest run and no completion prerequisite open. |
| `LoopState.RestoredIsTheLiveState` | src/local_coder/agents/base.py:180-215 | Resuming a saved checkpoint gives back exactly the live state it was taken from, including the rebuilt outcome map. |
| `LoopState.ValidationSuffices` | src/local_coder/core/runtime.py:247-281 | A checkpoint of unknown origin that passes validation gives a boundary from which a run keeps budgets, agreeing counters and a closed history, whatever its streak notes say. |
| `AgentLoop.RebuildOutcomes` | src/local_coder/agents/base.py:209-212 | The loop that rebuilds the outcome map from saved test results yields the map the live run kept. |
| `AgentLoop.CountTests` | src/local_coder/agents/base.py:873-877 | Counts the test calls of a batch before it is admitted. |
| `AgentLoop.CloseTurn` | src/local_coder/agents/base.py:759-812 | The loop over the calls of a refused or truncated reply gives each of them one synthetic result. |
| `AgentLoop.EachSavedIsGood` | src/local_coder/agents/base.py:347-394 | Every checkpoint of an execution was taken from a consistent live state, at an iteration no later than the current one. |
| `AgentLoop.Agent.CheckpointBoundary` | src/local_coder/agents/base.py:347-394 | Saves the live state and drops the pending journal; refuses, changing nothing, while a tool batch is open. |
| `AgentLoop.Agent.PauseForQuota` | src/local_coder/agents/base.py:332-345 | Inside a batch the last complete checkpoint is kept and handed out; between rounds a new one is saved. |
| `AgentLoop.Agent.CountCall` | src/local_coder/agents/base.py:966-1007 | Counts an executed call and, for a test run, its target, result and overall verdict. |
| `AgentLoop.Agent.TrackStreak` | src/local_coder/agents/base.py:1011-1024 | Extends, restarts or clears the streak of identical failures. |
| `AgentLoop.Agent.AppendResult` | src/local_coder/agents/base.py:1024-1103 | Adds the result with its recovery note and nudge, nudging once per streak and failing the run at the threshold. |
| `AgentLoop.Agent.ConsumeResult` | src/local_coder/agents/base.py:956-1103 | The statements for one result amount to one transition of the specification. |
| `AgentLoop.Agent.RunOpenBatch` | src/local_coder/agents/base.py:955-1103 | The loop over the scheduled results does exactly what the specification does call by call, including where it stops. |
| `AgentLoop.Agent.ExecuteCalls` | src/local_coder/agents/base.py:955-1104 | Whatever its calls do, an open batch keeps the live invariant; only a fully consumed one closes the history. |
| `AgentLoop.Agent.RunBatch` | src/local_coder/agents/base.py:878-1106 | A batch is marked open before its first call runs, is checkpointed only if fully consumed, and otherwise leaves all checkpoints alone and its iteration in the pending journal. |
| `AgentLoop.Agent.PrepareContext` | src/local_coder/agents/base.py:646-669 | Exactly the refreshed or compacted messages, and a quota stop here changes nothing. |
| `AgentLoop.Agent.SendBack` | src/local_coder/agents/base.py:822-850 | One attempt more, the reply and the request for another strategy at the end of the history, and a saved boundary. |
| `AgentLoop.Agent.FinalReply` | src/local_coder/agents/base.py:815-861 | Accepted if and only if all latest test runs passed and nothing is left open; sent back exactly if it leaves work open, is no protected stop, and attempts and iterations are left, and then counted as one more attempt; failed otherwise, with the count as it was. |
| `AgentLoop.Agent.HandleReply` | src/local_coder/agents/base.py:759-1110 | The outcome for every kind of reply: refusal, truncation, final reply, a batch that is not admitted (no call runs, nothing changes) and an executed batch. |
| `AgentLoop.Agent.Generate` | src/local_coder/agents/base.py:677-757 | A quota stop during generation restores the iteration count and keeps the round messages; every other outcome advances the count by one. |
| `AgentLoop.Agent.RunRound` | src/local_coder/agents/base.py:645-1106 | One iteration equals the reference transition, keeps every invariant and saves nothing inside a batch. |
| `AgentLoop.Agent.Advance` | src/local_coder/agents/base.py:645-1106 | One iteration seen from the loop: the rest of the loop from the new state is the rest of the loop from the old one; a batch cut short leaves its iteration marked and beyond every checkpoint. |
| `AgentLoop.Agent.Iterate` | src/local_coder/agents/base.py:645-1120 | The whole loop equals the reference recursion over iterations, and a completed run is soundly completed. |
| `AgentLoop.Agent.Conclude` | src/local_coder/agents/base.py:149-178 | A pause or an error leaves the state alone; every other exit records its terminal phase. |
| `AgentLoop.Agent.RunToEnd` | src/local_coder/agents/base.py:576-1110 | A run from any boundary: its result, its budgets, its checkpoints and the mark of an interrupted batch. |
| `AgentLoop.Agent.Begin` | src/local_coder/agents/base.py:576-644 | A fresh run starts from a boundary that can be saved. |
| `AgentLoop.Agent.Execute` | src/local_coder/agents/base.py:149-178 | A fresh run: equal to the reference run, within all budgets, completed only if sound, paused only at a resumable boundary. |
| `AgentLoop.Agent.Restore` | src/local_coder/agents/base.py:195-215 | The object after loading a checkpoint is at a boundary with exactly the restored live state. |
| `AgentLoop.Agent.Resume` | src/local_coder/agents/base.py:180-250 | Any checkpoint, of known or unknown origin, is rejected exactly if it fails validation or a batch of a later iteration was cut short; otherwise the run equals the reference run from the restored live state and keeps its invariants. |
| `DataFlow.AddSources` | src/local_coder/security_analysis.py:45-53 | Adds the sources of one fact without repetition and stops at sixteen. |
| `DataFlow.CollectSources` | src/local_coder/security_analysis.py:45-53 | The nested loop with its early return keeps the first sixteen distinct sources in first-seen order. |
| `DataFlow.AddAllReports` | src/local_coder/security_analysis.py:137-157 | Recording a list of wanted reports loses none of the selected ones unless the cap is reached, adds nothing else and never repeats a (line, rule). |
| `DataFlow.Analyzer.Record` | src/local_coder/security_analysis.py:137-157 | One finding is added unless it is not selected, repeats a (line, rule) or the cap is reached. |
| `DataFlow.Analyzer.ReportCall` | src/local_coder/security_analysis.py:266-296 | Adds the reports that the call wants, with the trace of its judged argument. |
| `DataFlow.Analyzer.VisitCall` | src/local_coder/security_analysis.py:266-312 | A call is reported before its parts are visited, in source order. |
| `DataFlow.Analyzer.VisitExpr` | src/local_coder/security_analysis.py:266-312 | Visiting an expression records exactly the reports its subexpressions want. |
| `DataFlow.Analyzer.VisitExprs` | src/local_coder/security_analysis.py:266-312 | The same for a list of expressions, in order. |
| `DataFlow.Analyzer.Bind` | src/local_coder/security_analysis.py:221-232 | An assignment binds the fact of its value, extends the trace of a fact that is not constant and removes the alias of the name. |
| `DataFlow.Analyzer.JoinBranches` | src/local_coder/security_analysis.py:256-264 | The key-by-key merge gives every name bound in either branch the join of its two facts. |
| `DataFlow.Analyzer.VisitIf` | src/local_coder/security_analysis.py:250-264 | Both branches start from the bindings before the statement; aliases are carried from one branch into the other. |
| `DataFlow.Analyzer.VisitStmt` | src/local_coder/security_analysis.py:234-264 | A statement changes scope and findings as specified. |
| `DataFlow.Analyzer.VisitStmts` | src/local_coder/security_analysis.py:234-264 | The same for a block. |
| `DataFlowFacts.NamesFollowImports` | src/local_coder/security_analysis.py:88-96 | A name means what it was imported as, and an attribute is reached through what it is taken of. |
| `DataFlowFacts.KeywordIs` | src/local_coder/security_analysis.py:266-270 | A keyword argument has the value that stands with its name. |
| `DataFlowFacts.JudgedIff` | src/local_coder/security_analysis.py:266-270 | A call is judged exactly if it has a positional argument or one of seven listed keywords. |
| `DataFlowFacts.ConstantIff` | src/local_coder/security_analysis.py:98-135 | Exactly which expressions count as constant, in any scope: literals, names given constants, displays, operators and formatted texts of constants, formatting and joining of constants, and paths made of constants with all that is called on them, nested at most sixty deep. |
| `DataFlowFacts.CallReportedIff` | src/local_coder/security_analysis.py:266-302 | A call is reported under a rule exactly if it is a sink of that rule, is judged, its input does not count as constant and, for a process, the flag is a constant `True`. |
| `DataFlowFacts.FileTextIsMissedIff` | src/local_coder/security_analysis.py:98-135 | The text of a file counts as constant exactly if its path does, so `os.system(pathlib.Path(path).read_text())` runs a shell on input and is unreported exactly then. |
| `DataFlowFacts.TraceShowsOrigins` | src/local_coder/security_analysis.py:98-135 | The trace of a fact shows nothing but what the value can come from: inputs, parameters and assignments; and all of it if that is at most sixteen sources. A constant comes from nowhere. |
| `DataFlowFacts.AssignedTrace` | src/local_coder/security_analysis.py:221-232 | A name that is given a value shows where the value comes from and that it was assigned here. |
| `DataFlowFacts.JoinedTrace` | src/local_coder/security_analysis.py:250-264 | After branches a name shows what it shows after either of them, and counts as constant exactly if it does after both. |
| `DataFlowFacts.ReportShowsOrigins` | src/local_coder/security_analysis.py:137-157 | Wherever a call stands in a body, each of its reports is at its line and shows where its judged argument comes from. |
| `DataFlowSoundness.CanonicalAgrees` | src/local_coder/security_analysis.py:88-96 | For names that are never rebound the resolved name matches a rule exactly if the name the program runs with does. |
| `DataFlowSoundness.EverySinkIsJudged` | src/local_coder/security_analysis.py:280-302 | Every SQL, shell, process and deserializer sink, listed by what running it does, is judged by the tables of the analysis, and nothing else is. |
| `DataFlowSoundness.FactIsSound` | src/local_coder/security_analysis.py:98-135 | A fact keeps its promises, for every environment the scope covers and up to the depth limit: marked constant, the value is built from literals only; with a value of its own, the runtime value is an equal literal. |
| `DataFlowSoundness.FrozenIffUnchangeable` | src/local_coder/security_analysis.py:98-135 | A constant fact is about a value that no call can change exactly if no container is part of the expression. |
| `DataFlowSoundness.LoosenCovers` | src/local_coder/security_analysis.py:98-135 | A scope still covers an environment in which names bound inside expressions hold anything, if no statement assigns those names. |
| `DataFlowSoundness.BoundCovers` | src/local_coder/security_analysis.py:221-232 | After an assignment the scope covers the environment after it. |
| `DataFlowSoundness.JoinCovers` | src/local_coder/security_analysis.py:250-264 | The merged scope covers every execution that either branch covers. |
| `DataFlowSoundness.KnownFlagDecides` | src/local_coder/security_analysis.py:287-289 | Where the fact about a shell flag is `True` or a false literal, also through a variable, a shell can open only if the fact is `True`. |
| `DataFlowSoundness.CallEventsAreWanted` | src/local_coder/security_analysis.py:266-296 | Every sink that a call of the fragment runs on a non-literal value is among the reports of the call; a shell counts as opened by any true flag, by keyword, position or unpacking. |
| `DataFlowSoundness.EventsAreWanted` | src/local_coder/security_analysis.py:266-312 | The same for all calls inside an expression, also inside comprehensions, lambdas and generators. |
| `DataFlowSoundness.IfCovers` | src/local_coder/security_analysis.py:250-264 | Whichever branch runs, scope and reports after the statement cover it. |
| `DataFlowSoundness.StmtIsSound` | src/local_coder/security_analysis.py:221-264 | On every path the scope after a statement covers the environment, with what assignment expressions and calls may have changed in it, and every reached sink is wanted. |
| `DataFlowSoundness.StmtsAreSound` | src/local_coder/security_analysis.py:221-264 | The same for a block. |
| `DataFlowSoundness.Analyze` | src/local_coder/security_analysis.py:60-316 | For every program of the fragment and every choice of branches: each SQL, shell or deserializer sink that receives a value not built from literals is reported at its line under its rule, unless the cap was reached; no report repeats. |
| `DataFlowRefinement.ExprCovered` | src/local_coder/security_analysis.py:98-135 | In an exact run with addresses, aliases and lambdas that keep their body, whatever an expression does is among the events its evaluation may have, and its value is bounded by the data it may give. |
| `DataFlowRefinement.RunsMayHappen` | src/local_coder/security_analysis.py:250-264 | Every use of a sink in an exact run of any program is an event of an execution along the same path, and a tainted one is an event on data not built from literals. |
| `DataFlowRefinement.RunsAreReported` | src/local_coder/security_analysis.py:60-316 | For every exact run of a program of the fragment: each selected sink that is handed anything from outside, however deep inside containers, is reported unless the cap was reached. |
| `DataFlowRuns.ExprBindsOnly` | src/local_coder/security_analysis.py:98-135 | Running an expression changes the meaning of no name but those that its assignment expressions bind. |
| `DataFlowRuns.AppendTaintsIff` | src/local_coder/security_analysis.py:98-135 | Appending to a list taints exactly the values that reach the list, and only if the item is tainted. |
| `DataFlowMisses.ShellMissedIff` | src/local_coder/security_analysis.py:266-296 | A shell call on a name is missed exactly if the name counts as constant and its value in the run is tainted. |
| `DataFlowMisses.UnseenChangeIsMissedIff` | src/local_coder/security_analysis.py:98-135 | After any expression: the analysis keeps its fact about a name, so the shell call is missed exactly if the name counted as constant and the run of the expression leaves it tainted; never if the expression does not bind the name and its value holds no container. |
| `DataFlowMisses.AssignmentExpressionIsMissedIff` | src/local_coder/security_analysis.py:98-135 | For every name and value: after an assignment expression the shell call is missed exactly if the name counted as constant and what was assigned is tainted. |
| `DataFlowMisses.DeferredUseIsMissedIff` | src/local_coder/security_analysis.py:98-135 | For every name and value: a shell call inside a lambda is missed exactly if the name counted as constant when the lambda was seen and the value given to it before the call is tainted. |
| `DataFlowMisses.ComprehensionUseIsMissedIff` | src/local_coder/security_analysis.py:98-135 | Over whatever a comprehension goes through, one shell call runs for each item in order, and they are missed exactly if the name counted as constant outside and some item, as it is named, is tainted. |
| `DataFlowMisses.ConstantIsMissedIff` | src/local_coder/security_analysis.py:98-135 | A name is given a constant: some expression that does not bind the name makes the analysis miss the shell call after it exactly if the constant has a container in it. |
| `DataFlowMisses.AppendIsMissedIff` | src/local_coder/security_analysis.py:98-135 | After an append through whatever name, the shell call is missed exactly if the name counted as constant and its value was tainted before, or reaches the list and the item is tainted. |
| `DataFlowMisses.CarriedOutIsMissedIff` | src/local_coder/security_analysis.py:266-312 | A call is taken to assign nothing: whatever statements it carries out, the shell call after it is missed exactly if the name counted as constant and they leave it tainted. |
| `DataFlowPrograms.AssignmentExpressionIsMissed` | src/local_coder/security_analysis.py:98-135 | After `x = "ls"` and `(x := value)` the shell runs on input unreported if the value is input, and nothing is missed if it is a literal. |
| `DataFlowPrograms.DeferredUseIsMissed` | src/local_coder/security_analysis.py:98-135 | The same after `x = "ls"`, a lambda with the shell call on x, `x = value` and a call of the lambda. |
| `DataFlowPrograms.ComprehensionUseIsMissed` | src/local_coder/security_analysis.py:98-135 | After `x = "ls"`, a comprehension with `for x in input()` runs the shell on input unreported. |
| `DataFlowPrograms.ChangedContainerIsMissed` | src/local_coder/security_analysis.py:98-135 | After `x = ["ls"]` and `y.append(input())` the shell call on x is missed if y is x, and not if y is another list. |
| `DataFlowPrograms.CarriedOutIsMissed` | src/local_coder/security_analysis.py:266-312 | With `exec("x = input()")` between `x = "ls"` and the shell call nothing is wanted, while the statement it carries out makes the shell run on input; the program is outside the fragment. |
| `DataFlowLimits.SinkCallReportedIff` | src/local_coder/security_analysis.py:266-296 | A call of a sink whose arguments are all non-constant is reported exactly if it has a positional argument or one of the listed keywords. |
| `DataFlowLimits.UnlistedKeywordIsMissed` | src/local_coder/security_analysis.py:266-270 | Input under any other keyword, or unpacked, runs the sink and is not reported: `os.system(command=input())`, `session.execute(statement=input())`. |
| `DataFlowLimits.SubprocessCallReportedIff` | src/local_coder/security_analysis.py:287-289 | A subprocess call is reported exactly if its input is where the analysis looks and not taken for a constant, and the fact about its flag is `True`. |
| `DataFlowLimits.OtherTrueFlagIsMissed` | src/local_coder/security_analysis.py:287-289 | Every other true literal opens a shell that is not reported: `subprocess.run(input(), shell=1)`. |
| `DataFlowLimits.FlagSetInOneBranchIsMissed` | src/local_coder/security_analysis.py:250-289 | A flag set to `True` in one branch: on the path through it a shell runs on input, and nothing is wanted. |
| `DataFlowLimits.StmtsBind` | src/local_coder/security_analysis.py:221-264 | After a list of statements a name is known, and its alias gone, exactly if it was so before or some branch assigns it. |
| `DataFlowLimits.RebindingHidesTheSinkIff` | src/local_coder/security_analysis.py:88-96 | A shell or deserializer call through an imported name, with non-constant input, is reported after a list of statements exactly if no branch of the list assigns that name. |
| `DataFlowLimits.RebindingAnAliasHidesTheSink` | src/local_coder/security_analysis.py:221-264 | Rebinding an imported module in one branch hides the sink on the path that skips the branch. |
| `JobSlot.ActorMoves` | src/local_coder/workbench.py:253-281 | Each step of a request or a job thread keeps its own client consistent, touches no other client and changes slot, locks and registry on its own account only. |
| `JobSlot.DrainKeeps` | src/local_coder/workbench.py:101-119 | The steps of the drain keep the invariant. |
| `JobSlot.StepKeeps` | src/local_coder/workbench.py:253-281 | Every step of the protocol keeps the invariant, if no starter fails after starting its thread. |
| `JobSlot.RunKeeps` | src/local_coder/workbench.py:253-281 | The invariant holds in every state of every interleaving. |
| `JobSlot.RunIsLater` | src/local_coder/workbench.py:101-119 | What never changes back along a run: phase, snapshot, cancellations, and threads that have not started by the snapshot. |
| `JobSlot.SlotSafety` | src/local_coder/findings_api.py:140-172 | At most one job is registered, a registered job means the slot is held, at most one job thread is live, and each acquisition is released exactly once. |
| `JobSlot.ShutdownSafety` | src/local_coder/workbench.py:101-119 | After the snapshot no job thread starts; every thread still live is in the snapshot, cancelled, with its thread recorded for joining. |
| `JobSlot.CleanDrainMeansQuiet` | src/local_coder/workbench.py:101-119 | If every thread recorded in the snapshot is dead, no job thread is ever live again. |
| `JobSlot.RuntimeStaysStopped` | src/local_coder/workbench.py:494-509 | From the moment the stop flag is set the runtime is not started again by the start request or the tuner; after the final gated stop it stays stopped. |
| `JobSlot.RuntimeIsServed` | src/local_coder/workbench.py:491-513 | A request to start the runtime that finds nobody in its way is admitted while the workbench serves, starts the runtime once and leaves the slot free. |
| `JobSlot.RuntimeIsRefused` | src/local_coder/workbench.py:491-513 | Once the stop flag is set such a request starts nothing and leaves the slot free. |
| `JobSlot.Launches` | src/local_coder/findings_api.py:140-172 | A session, finding or evaluation request that finds nobody in its way files its job and starts its thread. |
| `JobSlot.TuningLaunches` | src/local_coder/inference_tuning_api.py:39-65 | A tuning request does so in one section. |
| `JobSlot.ThreadEnds` | src/local_coder/workbench.py:373-378 | A job thread that ends takes its job out of the registry and leaves the slot free. |
| `JobSlot.FailedCopyFreesTheSlotOfALiveThread` | src/local_coder/evaluation_api.py:114-143 | If copying the returned row raises while the thread is live, the slot is freed under a job that is no longer registered, and another request can take it. |
| `JobSlot.FailedCopyBreaksSafety` | src/local_coder/evaluation_api.py:114-143 | In whatever state the thread is by then, live, deregistered or ended, a failed copy can be followed, without another failure, by a state that breaks the safety of the slot. |
| `JobSlot.CopiesMustSucceed` | src/local_coder/findings_api.py:140-172 | The assumption on the starters is exact: the first failed copy of any run makes an unsafe state reachable. |
| `JobSlot.TwoJobsAtOnce` | src/local_coder/findings_api.py:140-172 | One run from the start in which two job threads are live at once, the first no longer registered. |
| `Workbench.Workbench.constructor` | src/local_coder/workbench.py:95-99 | A workbench starts with a free slot, no jobs and every request still to come. |
| `Workbench.Workbench.TryAcquire` | src/local_coder/workbench.py:256-257 | The non-blocking acquisition is one step: it holds the slot or is refused. |
| `Workbench.Workbench.FileJob` | src/local_coder/findings_api.py:140-158 | The first locked section is the sequence of protocol steps for admission, a full history or a set stop flag, whichever applies. |
| `Workbench.Workbench.StartJob` | src/local_coder/workbench.py:268-274 | The second locked section records the thread before starting it, or unwinds if the stop flag was set in between. |
| `Workbench.Workbench.FileAndStart` | src/local_coder/inference_tuning_api.py:39-65 | A tuning job is filed and started in one locked section. |
| `Workbench.Workbench.AdmitRuntime` | src/local_coder/workbench.py:491-496 | The runtime start request goes on exactly if the workbench still serves. |
| `Workbench.Workbench.EndRequest` | src/local_coder/workbench.py:494-513 | A request that holds the slot itself releases it at its end. |
| `Workbench.Workbench.Unwind` | src/local_coder/workbench.py:276-281 | The exception path deregisters and then releases. |
| `Workbench.Workbench.EndThread` | src/local_coder/workbench.py:373-378 | A job thread deregisters and then releases, once. |
| `Workbench.Workbench.StartRuntime` | src/local_coder/workbench.py:499-505 | The gated branch starts the runtime exactly if the stop flag is not set. |
| `Workbench.Workbench.StartIfAllowed` | src/local_coder/inference_tuning.py:238-246 | The tuner starts a candidate only if neither shutdown nor cancellation has come; a restore ignores cancellation but not shutdown. |
| `Workbench.Workbench.BeginStopping` | src/local_coder/workbench.py:101-103 | Setting the stop flag under the gate is one step. |
| `Workbench.Workbench.CancelJobs` | src/local_coder/workbench.py:105-110 | The snapshot loop cancels exactly the registered jobs. |
| `Workbench.Workbench.StopRuntime` | src/local_coder/workbench.py:116-117 | The final gated stop is one step. |
| `Workbench.Workbench.ReleaseSlot` | src/local_coder/findings_api.py:248-253 | Releases the slot and counts a release of a slot nobody holds. |
| `RuntimeLifecycle.StepKeeps` | src/local_coder/inference.py:272-489 | Every step of worker, start, stop and readers keeps the invariant on status, endpoint, key, worker and process. |
| `RuntimeLifecycle.EndpointBelongsToTheRunningWorker` | src/local_coder/inference.py:483-489 | A reader gets an endpoint only in status "running", with the key of the same worker run, and that run is the latest and still alive. |
| `RuntimeLifecycle.RevealedIff` | src/local_coder/inference.py:483-489 | Along every run a reader gets endpoint and key of the latest worker exactly if the status is "running" and the process has not exited. |
| `RuntimeLifecycle.RevealedUntilRevoked` | src/local_coder/inference.py:428-489 | What a worker publishes is revealed to every reader until a stop, the worker itself or the end of its process takes it back. |
| `RuntimeLifecycle.QuietUntilLaunch` | src/local_coder/inference.py:428-434 | Nothing is published before another worker is launched once nothing is and the worker is cancelled. |
| `RuntimeLifecycle.StopRevokesTheEndpoint` | src/local_coder/inference.py:460-482 | Once a stop has cleared the endpoint, even one that reports its worker as pending, none is revealed before the next launch. |
| `RuntimeLifecycle.StoppedStaysStopped` | src/local_coder/inference.py:460-482 | When a stop returns "stopped" its worker has ended, and until a later start or stop status, endpoint and key stay as they are. |
| `InferenceManager.EmbeddedInferenceManager.ReadTheStatus` | src/local_coder/inference.py:168-179 | Reading the status turns a running server whose process has exited into an error without endpoint and key. |
| `InferenceManager.EmbeddedInferenceManager.RevealEndpoint` | src/local_coder/inference.py:483-489 | Reveals endpoint and key of the current run, or nothing. |
| `InferenceManager.EmbeddedInferenceManager.PublishEndpoint` | src/local_coder/inference.py:428-434 | Publishes exactly if no stop has come first. |
| `InferenceManager.EmbeddedInferenceManager.RecordFailure` | src/local_coder/inference.py:442-444 | A failure is recorded unless the worker was asked to stop. |
| `InferenceManager.EmbeddedInferenceManager.FinishWorker` | src/local_coder/inference.py:445-458 | The end of a worker is the sequence terminate, delete the key file, clear; a failed deletion clears nothing. |
| `InferenceManager.EmbeddedInferenceManager.Start` | src/local_coder/inference.py:272-295 | The start operation up to the launch, including refusal and a stuck prefetch. |
| `InferenceManager.EmbeddedInferenceManager.BeginStopping` | src/local_coder/inference.py:460-466 | A stop cancels first and then clears endpoint and key. |
| `InferenceManager.EmbeddedInferenceManager.EndStopping` | src/local_coder/inference.py:473-482 | A stop reports "stopped" if and only if the worker has ended. |
| `SemVer.ValueOfDecimal` | src/local_coder/security_intelligence.py:39-49 | The decimal form of a number has no superfluous zero and is read back as the number. |
| `SemVer.DecimalOfValue` | src/local_coder/security_intelligence.py:39-49 | A number without superfluous zeros is the decimal form of its value. |
| `SemVer.IdentifiersAre` | src/local_coder/security_intelligence.py:39-49 | Which characters identifiers consist of; a numeric one of a pre-release has no leading zero. |
| `SemVer.ParseShow` | src/local_coder/security_intelligence.py:39-49 | Every version is accepted in its written form and read back as itself. |
| `SemVer.ShowParse` | src/local_coder/security_intelligence.py:39-49 | Nothing else is accepted: what parses is the written form of a valid version. |
| `VersionOrder.LessTotal` | src/local_coder/security_intelligence.py:39-49 | The order on the tuple encoding is a strict total order. |
| `VersionOrder.LessIsPrecedence` | src/local_coder/security_intelligence.py:39-49 | Comparing tuples is the precedence of section 11 of Semantic Versioning 2.0.0. |
| `VersionOrder.SameKeyIffSameUpToBuild` | src/local_coder/security_intelligence.py:39-49 | Two versions have the same tuple exactly when they differ in build metadata only. |
| `NpmRange.FloorIsLeast` | src/local_coder/security_intelligence.py:83-86 | No version of a triple is below its "-0" bound: comparing with the bound compares triples. |
| `NpmRange.CompareIsSatisfies` | src/local_coder/security_intelligence.py:75-88 | Each operator decides what it means; caret and tilde accept exactly the versions from the bound up to the next triple. |
| `NpmRange.JudgeAll` | src/local_coder/security_intelligence.py:73-89 | The loop over terms: unreadable if any term is, else all must hold. |
| `NpmRange.EvaluateAlternative` | src/local_coder/security_intelligence.py:70-90 | One alternative is decided exactly when it has one to twenty readable terms; a pre-release needs a term that names one of the same triple. |
| `NpmRange.ComparatorMeans` | src/local_coder/security_intelligence.py:73-88 | For every pair of versions and each of the seven written operators the expression is decided, and its answer is the plain comparison in precedence order, up to the rule for pre-releases. |
| `NpmRange.TermsOfSpaced` | src/local_coder/security_intelligence.py:70-75 | Terms written with blanks or commas between them are read back as the list of terms. |
| `NpmRange.AlternativesOfBarred` | src/local_coder/security_intelligence.py:64-70 | Alternatives written with bars between them are read back as the list of alternatives. |
| `NpmRange.ExpressionMeans` | src/local_coder/security_intelligence.py:60-94 | A whole expression, written out from its alternatives, operators and versions, is decided, and holds exactly if some alternative has all its comparisons hold and allows the pre-release. |
| `NpmRange.ReadableIsWritten` | src/local_coder/security_intelligence.py:70-88 | Every text that is read as a term is one of the written operators followed by a version. |
| `NpmRange.EvaluateRange` | src/local_coder/security_intelligence.py:60-94 | The answer is none exactly if version or expression is not fully understood, never a negative; otherwise it says whether some alternative accepts the version. |
| `OsvRange.OrderIsUnique` | src/local_coder/security_intelligence.py:97-138 | The marks of a range have one version order, with a fix before an introduction at the same version. |
| `OsvRange.ReadAllKeeps` | src/local_coder/security_intelligence.py:108-127 | Reading events into intervals loses no event and keeps every interval proper. |
| `OsvRange.SeparatedInOrder` | src/local_coder/security_intelligence.py:128-137 | The ends of separated intervals, one interval after the other, are already in version order. |
| `OsvRange.ScanSeparated` | src/local_coder/security_intelligence.py:128-138 | Scanning separated intervals tells whether one contains the version. |
| `OsvRange.IntervalsAreTheScan` | src/local_coder/security_intelligence.py:97-138 | For every accepted event list, in whatever order it is written, the intervals contain a version exactly when the OSV Schema's scan in version order says affected. |
| `OsvRange.SeparatedIffArrangeable` | src/local_coder/security_intelligence.py:132-137 | The sort never loses an acceptable list: the sorted intervals are separated exactly if some arrangement is. |
| `OsvRange.AcceptedIff` | src/local_coder/security_intelligence.py:108-137 | The events, as they are listed, are accepted exactly if they open and close in turns, close in one of two ways, and the spans they mark do not meet. |
| `OsvRange.LimitsAgreeIff` | src/local_coder/security_intelligence.py:138 | The code asks for all limits, the schema for one: they disagree exactly if some limit lies above the version and some does not, which takes two limits. |
| `OsvRange.TwoLimitsDisagree` | src/local_coder/security_intelligence.py:138 | A version above one limit and below another is out of the range for the program and in it for the schema. |
| `OsvEvents.ReadEvents` | src/local_coder/security_intelligence.py:108-127 | The loop over raw events reads the list exactly if every event is understood and in an admissible order. |
| `OsvEvents.LimitsRead` | src/local_coder/security_intelligence.py:118-120 | The collected limits decide whether the version is below all limits of the list. |
| `OsvEvents.EventRange` | src/local_coder/security_intelligence.py:97-138 | On the raw events, by their kinds and versions: decided exactly when every event is understood, they are well listed, and the version is; then true exactly if the version lies in one of the spans, from an introduced version up to and without a fixed one, or up to and with a last affected one, and below every limit. |
| `OsvEvents.FixedMeans` | src/local_coder/security_intelligence.py:97-138 | Introduced a and fixed b: decided exactly if a is before b, and then affected from a on and below b. |
| `OsvEvents.LastAffectedMeans` | src/local_coder/security_intelligence.py:97-138 | Introduced a and last affected b: decided exactly if b is not before a, and then affected from a on up to and with b. |
| `OsvEvents.IntroducedMeans` | src/local_coder/security_intelligence.py:97-138 | Introduced a and nothing else: affected from a on. |
| `OsvEvents.FromTheStartMeans` | src/local_coder/security_intelligence.py:97-138 | Introduced "0" and fixed b: every version below b is affected, without a lower bound. |
| `Utf8.DecodeEncoded` | src/local_coder/security_reports.py:604-677 | Lenient decoding gives back every encoded text, which is well-formed. |
| `Utf8.WellFormedIsEncoded` | src/local_coder/processes.py:64-83 | The well-formed byte strings are exactly the encodings of texts. |
| `ReportPaths.UnquoteQuote` | src/local_coder/security_reports.py:604-677 | Percent quoting of a path is undone by unquoting, for every text. |
| `ReportPaths.QuotedCharacter` | src/local_coder/security_reports.py:604-677 | Letters, digits and five signs stand for themselves in a quoted path; every other character is written byte by byte. |
| `ReportPaths.EscapedDigits` | src/local_coder/security_reports.py:604-677 | A byte is written with a percent sign and two capital hexadecimal digits of its value. |
| `ReportPaths.CleanedTwice` | src/local_coder/security_reports.py:179-193 | Cleaning text twice is cleaning it once, and only the redaction mark is inserted. |
| `ReportPaths.CleanedText` | src/local_coder/security_reports.py:179-193 | Cleaned text has no control characters but line breaks and tabs, and no overrides of the writing direction. |
| `ReportPaths.PathReadBack` | src/local_coder/security_reports.py:196-214 | A quoted path is refused on import exactly if the quoted form is too long or what is left of it is not a relative path. |
| `ReportPaths.RelativeIff` | src/local_coder/security_reports.py:204-212 | A path is accepted exactly if no part between slashes is empty or climbs and no character is special. |
| `ReportPaths.FourLayers` | src/local_coder/security_reports.py:196-214 | A path that is quoted up to four times is read back; quoted once more it is refused, if quoting changes it at all. |
| `ReportPaths.CweIdIs` | src/local_coder/security_reports.py:217-224 | A weakness identifier is "CWE-" and a number of at most five digits without a leading zero. |
| `ReportPaths.NormalizedPath` | src/local_coder/security_reports.py:196-214 | A normalized path is clean and holds no percent sign. |
| `ReportPaths.LongQuotedPath` | src/local_coder/security_reports.py:196-214 | A valid path of 300 euro signs has a quoted form of 2700 characters, beyond the limit of 2048. |
| `Sarif.NormalizeEstablishes` | src/local_coder/security_reports.py:280-355 | Every accepted finding is in normal form: clean fields, non-empty title and rule, a bounded line, a well-formed weakness. |
| `Sarif.NormalizeAccepts` | src/local_coder/security_reports.py:280-355 | A finding is accepted exactly if no field is too long, the line is in bounds, the severity is one of the five words, the weakness is an identifier and the path stays inside. |
| `Sarif.NormalizeGives` | src/local_coder/security_reports.py:280-355 | What each field becomes, with its defaults. |
| `Sarif.WeaknessIs` | src/local_coder/security_reports.py:217-231 | The weakness is the supplied one, or the one that type, category or rule denotes, in this order, out of nine names. |
| `Sarif.TagsForMembers` | src/local_coder/security_reports.py:604-677 | A rule's tags are the weaknesses of the findings under the rule. |
| `Sarif.Register` | src/local_coder/security_reports.py:604-677 | Registering a finding keeps rule ids distinct and the index map in step with the rule list. |
| `Sarif.ListRules` | src/local_coder/security_reports.py:604-677 | Each finding gets the index of the one rule with its id, and every listed rule is used. |
| `Sarif.ExportSarif` | src/local_coder/security_reports.py:604-677 | One entry per finding, in order, pointing at its rule. Its level is error exactly for critical and high, warning for medium, note for low and info; severity, status, id, title, fix, exploit path and weakness are recorded, the quoted path and the line are its place, and a dismissal is an accepted suppression with its reason. |
| `Sarif.CheckRules` | src/local_coder/security_reports.py:680-845 | Rules are accepted exactly if their ids are bounded and distinct. |
| `Sarif.ImportAll` | src/local_coder/security_reports.py:680-845 | Entries are imported in order; one refused entry refuses the document. |
| `Sarif.PlaceAccepts` | src/local_coder/security_reports.py:800-836 | Every location of an entry must be acceptable, whichever of them counts. |
| `Sarif.EntryReads` | src/local_coder/security_reports.py:740-845 | What each field of an acceptable entry of any document becomes. |
| `Sarif.ImportSarif` | src/local_coder/security_reports.py:680-845 | A run is imported exactly if its rules and all entries are acceptable. Of any document: a recorded severity is kept exactly in the pairings an export writes and otherwise becomes high, medium, low or info by level; the place is the first location that shows a path; the weakness is the recorded one, the first among the tags of the rule, or the one that the name of the rule denotes; a dismissal keeps its reason. |
| `SarifRoundTrip.PathAfterImportIff` | src/local_coder/security_reports.py:196-214 | An exported path that does not begin with "./" comes back unchanged if it is still a relative path and its quoted form is short enough, and is refused otherwise. |
| `SarifRoundTrip.PathAfterImportIs` | src/local_coder/security_reports.py:196-214 | The result for every normalized path, also one that begins with "./", without reference to the import. |
| `SarifRoundTrip.UncoveredDotsAreLost` | src/local_coder/security_reports.py:196-214 | Cleaning can uncover a leading "./", and such a path comes back without it. |
| `SarifRoundTrip.UncoveredSlashIsRefused` | src/local_coder/security_reports.py:196-214 | Normalization accepts a path whose leading "/" only cleaning uncovers, and the import refuses what it keeps. |
| `SarifRoundTrip.LengthenedFieldIsRefused` | src/local_coder/security_reports.py:179-193 | An id of 200 characters in which only cleaning uncovers a secret is kept with 201 characters, and the import refuses the finding. |
| `SarifRoundTrip.NormalizeClean` | src/local_coder/security_reports.py:280-355 | Normalizing clean text changes nothing and fails only on length or path. |
| `SarifRoundTrip.EntryRoundTrip` | src/local_coder/security_reports.py:604-845 | An exported entry is imported exactly if its finding is importable, and then keeps it. |
| `SarifRoundTrip.RoundTrip` | src/local_coder/security_reports.py:604-845 | Importing the export of any normalized findings succeeds exactly if each is importable. With paths that do not begin with "./" that is: every field within its limit, every path relative and its quoted form short enough. Length, order, id, title, rule, severity, path, line where there is a path, fix, exploit path and a recorded weakness are kept, and verification is reset. |
| `TailKeeper.StripContinuations` | src/local_coder/processes.py:64-83 | The in-place loop drops exactly the leading continuation bytes. |
| `TailKeeper.Drain` | src/local_coder/processes.py:64-83 | However a stream is split into chunks, the result depends on the whole stream only. |
| `TailKeeper.TruncatedIsBoundedSuffix` | src/local_coder/processes.py:64-83 | A stream above its limit becomes the label and a suffix within the limit; only leading continuation bytes are missing from a full tail. |
| `TailKeeper.BoundHoldsIff` | src/local_coder/processes.py:64-83 | The bound holds for every stream exactly if the limit is above the label's length; at equality nothing is deleted. |
| `TailKeeper.SuffixOfText` | src/local_coder/processes.py:64-83 | Dropping the leading continuation bytes of any suffix of well-formed UTF-8 leaves well-formed UTF-8 and drops at most three bytes. |
| `TailKeeper.TextStaysText` | src/local_coder/processes.py:64-83 | A well-formed stream gives a well-formed result that lacks at most three bytes of a full tail. |
| `TailKeeper.Communicate` | src/local_coder/processes.py:44-102 | With the limit that the bounds and the number of pipes give, both pipes stay within their bound and together within the total, unless two pipes share a total below 68. |
| `TailKeeper.TotalTooSmallForTwo` | src/local_coder/processes.py:58-62 | Totals of 66 and 67 pass the check, and two noisy pipes then return 132 bytes. |
| `JsonDepth.ValidateRequestDepth` | src/local_coder/remote.py:62-79 | The loop rejects exactly if the running depth exceeds 64 after some byte. |
| `JsonDepth.ValueFollows` | src/local_coder/remote.py:62-79 | Over every JSON value, with any blanks and escapes, the running depth is the number of open containers after each byte, and ends where it began. |
| `JsonDepth.DepthsWithin` | src/local_coder/remote.py:62-79 | The number of open containers stays within a bound exactly if the nesting does. |
| `JsonDepth.PassesIffNestingFits` | src/local_coder/remote.py:62-79 | A JSON text passes if and only if its nesting is at most 64. |
| `EvidenceChain.HeadFixesHistory` | src/local_coder/security_reports.py:414-468 | Two journals that load and share a head are the same journal, record for record, or two of their records show a collision of the digest. |
| `EvidenceChain.AnchoredPrefix` | src/local_coder/security_reports.py:414-468 | A head seen earlier pins everything up to the record that carries it, or a collision is at hand. |
| `EvidenceChain.VerifiedHistory` | src/local_coder/security_reports.py:476-504 | Unless the records at hand collide, a verification against a recorded head succeeds exactly on the recorded history. |
| `EvidenceChain.VerificationCanFail` | src/local_coder/security_reports.py:476-504 | There are a digest and two loadable journals that do not collide and that the head tells apart. |
| `EvidenceChain.ChainedIff` | src/local_coder/security_reports.py:434-467 | A journal is chained exactly if every row has its position, the hash of the row before and the digest of its own fields. |
| `EvidenceChain.FormatsAre` | src/local_coder/security_reports.py:43-45 | The characters and lengths of hashes and kinds. |
| `EvidenceChain.RemediationIff` | src/local_coder/security_reports.py:552-590 | A remediation is recorded exactly if its references name the last records with these hashes, two attempts at one case of the finding, of which the first triggered it and the later one did not. |
| `EvidenceChain.RemediationIsSupported` | src/local_coder/security_reports.py:552-590 | A remediation record names two earlier attempts at the same case of the same finding, triggered first and not triggered later. |
| `EvidenceChain.EvidenceStore.Load` | src/local_coder/security_reports.py:414-468 | The loading loop accepts exactly the chained journals within the limits. |
| `EvidenceChain.EvidenceStore.Verify` | src/local_coder/security_reports.py:476-504 | Valid exactly if the file loads and has the expected head. |
| `EvidenceChain.EvidenceStore.Append` | src/local_coder/security_reports.py:506-549 | Succeeds exactly if kind, journal, references and limits allow; then the journal is the old one with one more record and loads again; otherwise the file is untouched. |
| `EvidenceChain.LastHashFixesEvents` | src/local_coder/redteam.py:156-172 | The last hash of an engagement journal fixes all its events, without an index, unless two of the events collide. |
| `EvidenceChain.EngagementStore.Load` | src/local_coder/redteam.py:156-172 | The loading loop accepts exactly the chained event lists of the right engagement within the size limit. |
| `EvidenceChain.EngagementStore.Write` | src/local_coder/redteam.py:140-154 | A record is written exactly if it is not too large. |
| `EvidenceChain.EngagementStore.Evidence` | src/local_coder/redteam.py:192-203 | Adds one event exactly if there is room; a journal that loaded still loads. |
| `EvidenceChain.EngagementStore.ReserveRequest` | src/local_coder/redteam.py:461-470 | Grants a request exactly within scope, budget and journal room; then one more request is counted and one more "http_attempt" event stands at the end of the journal, in one update; a refused request changes nothing. |
| `InspectionCache.EvictKeepsNewest` | src/local_coder/inference_discovery.py:333-339 | Eviction keeps the longest run of most recently used entries that fits both caps, and always the newest entry. |
| `InspectionCache.DiscoveryManager.EvictOldest` | src/local_coder/inference_discovery.py:333-339 | The eviction loop keeps the tracked bytes equal to the sum of the stored sizes and ends within both caps. |
| `InspectionCache.DiscoveryManager.InspectCached` | src/local_coder/inference_discovery.py:316-340 | Each call returns and stores exactly what the specification says; keys stay distinct and in order of last use over all calls so far, the byte count is exact and both caps hold. |
| `InspectionCache.StoredRecordSurvives` | src/local_coder/inference_discovery.py:316-340 | A record stored by a call survives its own eviction loop as the newest entry. |
| `InspectionCache.CacheIsByLastUse` | src/local_coder/inference_discovery.py:316-340 | After any sequence of calls the cached keys stand in the order in which they were last asked for. |
| `InspectionCache.StoreKeepsMostRecentlyUsed` | src/local_coder/inference_discovery.py:333-339 | After any sequence of calls that ends with a store, the cache holds the most recently used entries, as many as both caps allow, the new one among them. |
| `InspectionCache.CallIsFresh` | src/local_coder/inference_discovery.py:316-340 | While each path is inspected as one kind, a call returns what a fresh inspection would. |
| `InspectionCache.OtherKindIsFreshIff` | src/local_coder/inference_discovery.py:316-340 | The key leaves out the kind: asked for the other kind, a call is fresh exactly if both kinds of inspection agree. |
| `InspectionCache.RuntimeIsReadAsModel` | src/local_coder/inference_discovery.py:316-340 | A file inspected as a model and then as a runtime gives the record of the model both times. |
| `NpmLock.ParentOfLocation` | src/local_coder/security_intelligence.py:369-401 | Cutting a location at its last separator gives the location of the enclosing package. |
| `NpmLock.NearestIsNearest` | src/local_coder/security_intelligence.py:380-396 | The outward search finds the nearest enclosing entry of the name, or none exactly if none exists. |
| `NpmLock.Resolve` | src/local_coder/security_intelligence.py:380-396 | The loop that cuts text resolves a dependency to its nearest entry. |
| `NpmLock.EveryDependencyCounted` | src/local_coder/security_intelligence.py:369-401 | Every dependency gives exactly one edge or one unresolved report. |
| `NpmLock.AllDependenciesAreGiven` | src/local_coder/security_intelligence.py:380-396 | Each dependency in turn gives one edge, from its package to the nearest entry of its name, or, if there is none, one report of its package, and nothing else is added. |
| `NpmLock.ResolvePackage` | src/local_coder/security_intelligence.py:385-401 | The dependencies of one package are resolved exactly if each has a valid name and is reached within the budget, each to its nearest entry or to a report. |
| `NpmLock.ResolveAll` | src/local_coder/security_intelligence.py:369-401 | All packages, after what earlier manifests have found: complete exactly if every dependency has a valid name and is reached within the budget, and then with an edge to the nearest entry or a report for each. |
| `NpmLock.RoomForAll` | src/local_coder/security_intelligence.py:369-401 | A lock with valid names and no more dependencies than there is room for edges is resolved in full. |
| `NpmLock.PopKeeps` | src/local_coder/security_intelligence.py:402-418 | Taking the last waiting node and queueing its children accounts for every node and edge. |
| `NpmLock.PlaceIsLocation` | src/local_coder/security_intelligence.py:402-418 | A node of a legacy lock stands where a current lock would locate it. |
| `NpmLock.VisitLast` | src/local_coder/security_intelligence.py:402-418 | One turn of the worklist records a component and, below the top, an edge. |
| `NpmLock.WalkLegacy` | src/local_coder/security_intelligence.py:402-418 | The worklist finishes exactly if the lock fits the budgets, with one component per node and one edge per node below the top. |
| `GgufFormat.Number8Held` | src/local_coder/inference_discovery.py:112-163 | A number that fits eight bytes is read back as itself. |
| `GgufFormat.ValueEndHeld` | src/local_coder/inference_discovery.py:112-163 | Wherever the encoding of a metadata value stands, the value ends exactly where its encoding does. |
| `GgufInspect.ReadsValue` | src/local_coder/inference_discovery.py:112-163 | Kept or skipped, every well-formed value within the bounds is read to exactly its end, at its exact cost in bytes read. |
| `GgufInspect.TypedIsRead` | src/local_coder/inference_discovery.py:112-133 | Every integer type of the GGUF specification, signed or not, is read as its value, and every other scalar as something else. |
| `GgufMetadata.SkipTextList` | src/local_coder/inference_discovery.py:134-163 | The loop over the texts of an array stops where the specification does. |
| `GgufMetadata.ParseValue` | src/local_coder/inference_discovery.py:112-163 | The reader of one value equals its specification. |
| `GgufMetadata.ParseEntry` | src/local_coder/inference_discovery.py:169-188 | One entry is read and noted as specified, or reading stops. |
| `GgufMetadata.ParseEntries` | src/local_coder/inference_discovery.py:169-188 | The loop over entries stays within both bounds. |
| `GgufMetadata.InspectGguf` | src/local_coder/inference_discovery.py:104-193 | Never reads more than 1 MiB and never moves past the end of the file or 16 MiB; a broken file is reported with what was found before the break. |
| `GgufSerialized.EntriesRead` | src/local_coder/inference_discovery.py:169-188 | A serialized list within the bounds is read entry by entry to its exact end. |
| `GgufSerialized.KeepsLast` | src/local_coder/inference_discovery.py:169-193 | A repeated key keeps its last value. |
| `GgufSerialized.PicksFrom` | src/local_coder/inference_discovery.py:169-193 | The context length is the architecture's own if valid, else the last valid one. |
| `GgufSerialized.ReportRecovers` | src/local_coder/inference_discovery.py:169-193 | The report of a complete reading holds the architecture, name and context length of the list. |
| `GgufSerialized.RoundTrip` | src/local_coder/inference_discovery.py:104-193 | A file with a serialized metadata list within the bounds is read back in full; of a longer list the first 4096 pairs are, and the report is partial exactly then. |
| `GgufSerialized.BreaksOff` | src/local_coder/inference_discovery.py:169-193 | Wherever the list breaks off, the report is partial and holds the first 500 characters of the architecture and name last given before, and the last valid context length. |
| `TokenizerSignature.ConsumeText` | src/local_coder/inference_tuning.py:76-126 | Walks over one text to its end, or fails. |
| `TokenizerSignature.ConsumeTexts` | src/local_coder/inference_tuning.py:76-126 | Walks over the texts of an array to their end, or fails. |
| `TokenizerSignature.ConsumeArray` | src/local_coder/inference_tuning.py:76-126 | Walks over an array to its end, or fails. |
| `TokenizerSignature.Consume` | src/local_coder/inference_tuning.py:76-126 | The walk ends exactly at the value's end and fails exactly if there is none within the bounds. |
| `TokenizerSignature.ReadersAgree` | src/local_coder/inference_tuning.py:76-126 | The two parsers stop at the same place on every value the first can afford. |
| `TokenizerSignature.Sign` | src/local_coder/inference_tuning.py:76-126 | The signature of a file whose metadata is complete and names its tokenizer; anything less gives none. |
| `TokenizerSignature.PairsWalk` | src/local_coder/inference_tuning.py:76-126 | A serialized list is walked to its end with the last value of every relevant key. |
| `TokenizerSignature.SignatureIs` | src/local_coder/inference_tuning.py:118-125 | The signature holds, for the architecture and every tokenizer key but the chat template, kind and bytes of its last entry, and nothing else. |
| `TokenizerSignature.SignSerialized` | src/local_coder/inference_tuning.py:76-126 | A serialized file is signed exactly if the required keys are among its entries. |
| `TokenizerSignature.Compatible` | src/local_coder/inference_tuning.py:129-140 | Two serialized files are compatible exactly if every relevant entry has the same kind and bytes in both and the required keys are present. |

## Left out

- Agent loop: retries and temperature, the text patterns, the progress and compaction guards and the red-team subclass; their verdicts are inputs. Which errors and events are logged is not modelled.
- Agent loop: a checkpoint is the saved state, metrics and streak notes; the other notes it carries (profiles, budgets of context, file fingerprints) are not modelled, nor is a crash of the process between two writes.
- LoopState.SavedCheckpointsAreResumable: holds for an orderly outside only; `RefreshClosedIff` says what happens otherwise.
- AgentLoop.Agent.Resume: for a checkpoint of unknown origin nothing is said about its streak of failures, which the program does not check.
- DataFlowSoundness.Analyze: speaks of the fragment `PlainStmts`: single-name assignments, branches and expressions, with known shell flags, the sink's input where the analysis looks for it, and names bound inside expressions that no statement assigns. Outside are statements that assign imported or well-known names or containers built from literals, calls of builtins that assign names, path objects (what counts as constant with them is `DataFlowFacts.ConstantIff`), and modules or sinks used as values; so are loops, augmented and tuple assignment.
- DataFlowRuns.RunExpr: follows the forms listed above and ends at any other, so it says what does happen and not all that can; `RunsMayHappen` bounds it.
- Data-flow analysis: the checks for weak cryptography, outbound requests, path traversal and secrets, the nesting of functions and classes, the collection of imports and the final sort, confidence and message texts.
- JobSlot: the displayed status of job rows and the contents of the history that is evicted; synchronous requests appear only as holders of the slot; installing a runtime is not a step. `runtimeOn` says that the runtime was asked to run.
- JobSlot.SlotSafety: assumes that no starter fails after its thread has started; `CopiesMustSucceed` shows that it must be assumed.
- Runtime lifecycle: configuring, installing a runtime, the readings of the prefetch thread and the server process itself.
- Versions: the optional PEP 440 adapter, and digits and blanks outside ASCII.
- NpmLock: an entry's location stands for its component; version strings, hashes and entries without an exact version are left out, and the packages map is taken to hold well-formed nested locations.
- NpmLock.WalkLegacy: which of several exhausted budgets ends a walk is not stated, only that one does.
- SARIF: the structural limits on a document, copying of sensitive values into other fields, field aliases, evidence and package data, and the tool's descriptive texts.
- Evidence: files, locks, atomic replacement and the JSON text of records; data entries are strings, and the limits on one record are a parameter.
- GGUF: opening a file and checking its identity, the recommended context and the display name; the second parser keeps raw bytes where the program keeps their digest.
- JSON nesting: the inner syntax of numbers and literal names, which holds no byte the scanner looks at.
- Output capture: timeouts, cancellation and the processes themselves.
- HTTP handlers, the web interface, the editor and desktop integrations, sandboxing, version control and model backends.
