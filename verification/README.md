# A verified model of the graph engine, its durable log, and the algorithms around it

The repository runs graphs of agent nodes. A run executes one node after another, appends what happens to an
append-only log, and can be paused on a question, crashed, recovered, resumed and forked. This project models that
engine as the imperative code it is, states what a run means without any log or crash, and proves that the first
refines the second. Around it stand a Temporal driver of the same graphs, the byte-level log file, the graph compiler
and its topology, a fleet scheduler, and the algorithms of the evaluation and permission packages.

`dafny verify dfyconfig.toml` checks everything. Every induction is written out: lemmas whose statement Dafny would
otherwise try to prove by an induction of its own carry `{:induction false}`.

## How the modules fit together

| file | what it models |
|---|---|
| `GraphModel` | a compiled graph; what one execution of a node and one routing decision compute |
| `RunLog` | log records, replay, and which record may follow which log (`Legal`, `Reachable`) |
| `Ideal` | the reference run: no log, no crash; and the refinement theorems |
| `LogShape`, `Summary` | what holds of every reachable log: numbering, commit chain, idempotency keys, summaries |
| `Runtime`, `Charging`, `FanOut`, `Engine` | the store, the log writer, the recorder; what executions charge; fan-out; `Run`, `Resume`, `Recover`, `Fork` |
| `Lifetime` | any sequence of those calls on one run, and of power losses |
| `Temporal` | the second driver of the same graph |
| `FileStore`, `PowerLoss` | the log file under torn writes and power loss; that the losses take nothing of the run |
| `Compile`, `Topology`, `Digraph` | the builder and compiler, and the depth-first search that marks loops |
| `Fleet` | the task queue and the workers, over every interleaving |
| `Matching`, `Sizes`, `Glob`, `Rouge`, `TimeSplit`, `PassAtK` | trajectory matching, globs, ROUGE, time split, pass@k |

The chain of argument for the engine: `Engine` appends only records that `RunLog.Legal` allows, so every log it leaves
is `Reachable`, whatever fails. `Ideal.Abs` reads a configuration (state, next node, step, path, executions, commits,
pending question, answers used) off a log. `Ideal.RecordIsStep` shows that one more legal record either changes nothing
in it or is exactly one step of the reference run, `Ideal.LogRefinesReference` lifts that to whole logs, and since the
reference run ends in one place only (`Ideal.HaltIsUnique`), `Ideal.CrashEquivalence` follows.

The environment is nondeterministic. An append may fail before or after the record landed; an attempt, a branch or a
load may fail; a call may be cancelled. A process that dies between two appends leaves the log of a call whose next
append failed, so a crash is one of these choices. `Store.faults` counts them: a contract that speaks of equal counts
speaks of calls in which the environment interfered with nothing.

What is assumed:

- A state survives the JSON round trip that the code asks for (graph/durable.go:24-25), so a state is its JSON text.
- Node, route, clone and merge functions are deterministic functions of what they are given: the state, the execution
  number and the answer. In particular a node's result does not depend on its recovered session or on the attempt
  number. A node may fail for reasons of its own at any attempt. States share nothing: the default copy for a branch is
  a shallow one (graph/graph.go:193-196), so a graph whose branches mutate what their states point to must bring a
  clone of its own. Route functions leave the state alone, which the source hands them by pointer.
- `Resume` is called with the checkpoint of the question that is pending, or with one of a run that the store has never
  seen; one process at a time writes a run's log.
- What an attempt charges with AddCost is a list by node and branch name, `Charges`, arbitrary from one execution to the
  next.
- The JSON of a record that is ever written to a file is one line without surrounding white space, decodes to itself,
  and no proper non-empty prefix of it is valid JSON. `Codec.known` says which records those are (a cost, for one, is a
  float64, not any real); `FileStore.LawfulCodec` shows that the assumption can be met for any file. Only the last
  append of a file can be torn. A power loss keeps what was fsynced and takes bytes only off the end: it leaves no holes
  and revives no tail that was truncated before. A file that is there after a power loss is in its directory for good.
- Floating-point numbers are reals. What a fleet task costs is not negative.

Findings:

- The comment on `logResume` says that a checkpoint from elsewhere leaves the log self-contained
  (graph/durable.go:442-444), and `Recover` promises a cumulative report (graph/durable.go:286-288). The imported log
  keeps the state, node, step and answer, and the run goes on from them as it should (`Engine.ImportedRunRefines`). It
  does not keep the checkpoint's path and prior steps: a process that recovers the run restores them exactly if they
  were what the import record stands for (`Engine.ImportForgetsThePast`), and `Engine.ImportLosesANode` is a checkpoint
  for which they were not. An import that is cut short after its first record has lost the question as well
  (`Engine.ImportCutShort`).
- `Resume` does not look at what the log waits for (graph/durable.go:445-465). The log it leaves for its loop replays to
  where the loop starts exactly if the checkpoint is that of the pending question (`Engine.ResumesWhereAsked`); with
  any other the log knows of no answer (`Engine.StaleResumeDiverges`), as after an import that was cut short and is
  resumed again (`Engine.ResumedAgainIsDeaf`).
- FileStore's documentation promises that no power loss takes a record whose Append has returned
  (graph/checkpoint.go:238-240). Only the Append that found no file syncs the directory, last of all, and ignores an
  error of that (graph/checkpoint.go:276-296). The promise is kept exactly for files whose name is secure
  (`FileStore.DurableExactlyIfNamed`), that is, if that sync was done or the file has come through a power loss
  (`FileStore.NamedIs`). A file whose first Append died once it had created it can be lost for all later ones
  (`FileStore.NameNeverSecured`).
- `IdempotencyKey` is to differ between logical steps (graph/durable.go:65-70). Of different runs it does exactly if run
  id and node do not read the same together (`LogShape.KeysAcrossRuns`); a run id with a colon, which FileStore refuses
  but a store need not, can collide (`LogShape.ColonsConfuseRuns`).
- The clamp of the model's time at zero (eval/run.go:339) never acts in a timed run (`TimeSplit.Builder.Finish`), and
  the check that a recovered run's next node still exists (graph/durable.go:359-363) never fails on the graph the run
  was started on (`Engine.Restart`).

## Model

| member | source | states |
|---|---|---|
| `GraphModel.Runnable.NextStaysWired` | graph/run.go:218-233 | Out of any node that can be stepped there is a route, and wherever a route function sends the run, if `next` accepts it, is End or a node that can be stepped. |
| `GraphModel.Runnable.NextIs` | graph/run.go:218-233 | The route out of a node is its static edge or, without one, what its route function returned, if that is a declared target; otherwise there is none. |
| `GraphModel.Runnable.EvalIs` | graph/run.go:237-350 | An execution of a plain node is its function's result; of a parallel one it succeeds with an outcome exactly if each branch's function succeeds on a copy of the state and merge, given their states in declared order, returns that outcome; it never asks. |
| `RunLog.ReplayRecords` | graph/durable.go:218-264 | One pass over the records computes the replay fold, which ReplayReadsLast and HashIsKept tie to the records; it reports "no run_start" exactly when none was seen. |
| `RunLog.ReachableIsConsistent` | graph/durable.go:200-264 | After any reachable history replay is usable: the next node exists, the pending question is that node's next execution, a finished run is at End and waits for nothing, and the last number is the length of the log. |
| `RunLog.ReachablePrefix` | graph/durable.go:88-105 | Every prefix of a reachable log is reachable: wherever a process dies, what it left can be recovered. |
| `Ideal.ReferenceHalts` | graph/run.go:142-152 | The reference run halts within maxSteps + 2 answers + 1 executions, whatever the graph's loops: the step limit cuts them, and a node cannot ask more often than it is answered. |
| `Ideal.HaltIsUnique` | graph/run.go:142-215 | However far two executions of the reference run were observed, if both are at a halt they are at the same one. |
| `Ideal.ReplayRestores` | graph/durable.go:218-264 | On every reachable log replay restores the configuration of the run: state, next node, step, path and pending question. |
| `Ideal.RecordIsStep` | graph/run.go:142-215 | One more record leaves the configuration alone or, if it is a commit or an interrupt of the run proper, is exactly one step of the reference run. |
| `Ideal.LogRefinesReference` | graph/durable.go:283-301 | Between any two points of a reachable log, whatever crashed, failed, was recovered or resumed in between, the run moved only by steps of the reference run on the same answers; an imported run does so from its checkpoint on. |
| `Ideal.HeardStays` | graph/durable.go:302-372 | Without a further resume record in the log, no execution hears a further answer: neither Recover nor the loop makes one up. |
| `Ideal.CrashEquivalence` | graph/durable.go:283-301 | Two logs that were once at the same configuration and got as far as the same answers take them agree on state, path, executions and commits, however often either crashed. |
| `Ideal.FinishedIsReferenceResult` | graph/durable.go:183-197 | A finished log, however it came about, holds the final configuration of the reference run from its first record. |
| `Ideal.FinishedIsHalted` | graph/durable.go:334-342 | A run that the log calls finished is at End, and no answer would move it. |
| `LogShape.SeqIsDense` | graph/durable.go:88-105 | Records are numbered 1, 2, 3, ... without a gap, over all processes that wrote the log. |
| `LogShape.StepsNeverGoBack` | graph/run.go:149-213 | The step count never falls, and while it stands still so does the node. |
| `LogShape.NoRestartOfCommitted` | graph/durable.go:19-21 | No execution starts again once its step is committed. |
| `LogShape.CommitsFormChain` | graph/durable.go:166-180 | Commits are numbered on from where the run started, each is of the node that the one before routed to, the run continues where the last one routed, and from Start there are at most maxSteps of them. |
| `LogShape.AttemptsAreCounted` | graph/durable.go:166-180 | The attempt number in a commit record is the number of executions of that node so far, over all processes; of an imported run nothing is said. |
| `LogShape.RoutesAreTaken` | graph/run.go:207-213 | In every reachable log each commit routes along the static edge of its node or, without one, to what the route function returned for the committed state, a declared target. |
| `LogShape.CommitsAreComputed` | graph/run.go:149-213 | Each commit holds what the node's function, or its branches' and merge, computed from the restored state before it, as the execution of that number, with the answer given for it. |
| `LogShape.QuestionsAreAsked` | graph/run.go:186-205 | Each question but an import's is one that the node's function asked about the restored state before it. |
| `LogShape.ReplayReadsLast` | graph/durable.go:218-264 | Replay restores the state of the last record that holds one, next node and step of the last run_start, commit or fork, and an answer exactly if no such record or interrupt came after its resume. |
| `LogShape.HashIsKept` | graph/durable.go:224-228 | The topology hash that replay restores is that of the log's first record, a run_start. |
| `LogShape.KeyIsInjective` | graph/durable.go:71-77 | Within a run two idempotency keys are equal exactly when node and step are, colons in node names or not. |
| `LogShape.KeysAcrossRuns` | graph/durable.go:65-77 | Keys of any two runs are equal exactly if the steps are and run id and node read the same together; without colons in run ids, exactly if run, node and step are. |
| `LogShape.ColonsConfuseRuns` | graph/durable.go:71-77 | Two run ids, one with a colon, under which different executions have the same key. |
| `LogShape.ItoaReads` | graph/durable.go:76-76 | The step in a key is its decimal number, without leading zeros. |
| `LogShape.KeysIdentifyExecutions` | graph/durable.go:65-77 | Two executions ever started in a run share a key exactly when they are attempts of one step, that is, when nothing was committed between them. |
| `Runtime.CkWriter.Append` | graph/durable.go:88-105 | The record lands with the next number or the writer has failed; after the first failure nothing is written any more. |
| `Runtime.Recorder.SeedVisits` | graph/report.go:109-117 | After seeding, every node's count is the number of its executions in the path. |
| `Runtime.Recorder.Report` | graph/report.go:140-156 | The report is the earlier processes' steps and then this one's, its total is the sum of both. |
| `FanOut.AddCost` | graph/report.go:179-187 | A charge is added once, to its own branch's scope, and to no other. |
| `FanOut.Schedule` | graph/run.go:306-341 | Whatever order the branches run, charge and finish in: if none failed, results hold each branch's own result in declared order; every branch has a step in the report that costs what it charged; and the report grows by the sum of all charges exactly. |
| `FanOut.Run` | graph/run.go:306-350 | Whatever the schedule, if a fan-out succeeds then every branch's function succeeded on a copy of the state and the outcome is merge of their states in declared order; it fails exactly if that does, unless a branch failed for reasons of its own. |
| `Engine.Exec` | graph/run.go:237-296 | An attempt yields what the node's function computes, or merge over the branches in declared order, or it fails; the node's own step is recorded last, at what the node itself charged; the report's total grows by exactly what node and branches charged. |
| `Engine.LogSessions` | graph/durable.go:467-487 | Session records move nothing: the log still replays to the loop's state, node, step, path and answer. |
| `Engine.LogCommit` | graph/durable.go:164-180 | A commit with the node's attempt number, route and cost and then its edge are appended, or the call fails; the log then replays to the next node with the new state. |
| `Engine.Conclude` | graph/run.go:186-213 | After an attempt the loop goes on exactly at the committed next node, or stops paused on a logged question, or stops failed: with a node error or a bad route nothing was logged, and of an append that failed the log may hold that very execution. If nothing interfered, the reference run is stuck there too. |
| `Engine.TakeTurn` | graph/run.go:149-213 | One turn keeps the loop's variables equal to what the log replays to. The process's report gains the attempt with all it charged, whichever way the attempt ends, unless already its start could not be logged; if it is concluded, the log reports the same step. |
| `Engine.TurnIsAccounted` | graph/run.go:149-213 | However a turn ends the loop, the report is what the log reports, and over that the attempt that failed, or in the path the node whose start could not be logged. |
| `Engine.Loop` | graph/run.go:142-215 | At every head of the loop state, node, step, path and answer are what replay computes from the log. The loop ends where the reference run halts, unless the environment interfered; it adds no answer, fork or import to the log; every execution is in its report once, and the total is what they charged; and each error means what it says: max steps that the limit is reached before a node, a bad route that the route function panicked on this node's result or left its declared targets, a node error that a node was due within the limit. |
| `Engine.Pause` | graph/run.go:187-205 | The checkpoint handed out is the one of the question just logged, and its prior steps are what the log reports. |
| `Engine.Finish` | graph/durable.go:182-197 | Exactly one run_end, with the error if there is one, closes a segment that did not pause; what is recorded as finished is the state returned, and a result that could not be recorded is not returned as one. The report stands to the log as it did. |
| `Engine.HowItEnds` | graph/run.go:142-215 | If nothing interfered, where the log stands decides the result: finished exactly at End, paused exactly on an open question, max steps, node error and invalid route each exactly under its own condition, stated over the node, the route function and its targets. |
| `Engine.Run` | graph/run.go:59-85 | Run starts the log with its initial state, the graph's topology hash and the first node, which is Start's static edge or what its route function returned, or refuses an invalid route; it gives itself no answer; what it returns, errors included, is what the log says, and without interference nothing but an answer could take the run further. There is a report even on failure: it has every execution of the log, and the failed one if there is one, and costs what they charged. |
| `Engine.Resume` | graph/run.go:103-140 | Resume logs the answer it was given, that one and no other, and re-executes the pending node with it; a run that the store has never seen is imported first; a checkpoint of an unknown node or a negative step is refused. Result, log and cumulative report agree, for failed calls too, and the path goes on from the checkpoint's. |
| `Engine.LogImport` | graph/durable.go:456-463 | An unknown checkpoint becomes these two records, a run_start with its state, node and step and an interrupt, or a part of them and a failure. |
| `Engine.ImportForgetsThePast` | graph/durable.go:442-465 | Of any log of an imported run: replay restores the path, a node's count, the steps and the cost that the importing process has, if and only if the checkpoint's path, count, steps and cost were those of the import record alone. |
| `Engine.ImportLosesANode` | graph/durable.go:456-463 | A checkpoint with two nodes and a cost, of which replay restores one node and no cost. |
| `Engine.ImportCutShort` | graph/durable.go:456-463 | After only the first record of an import, Recover would execute the node with no answer and no question. |
| `Engine.ResumesWhereAsked` | graph/durable.go:445-465 | The log that Resume leaves replays to where its loop starts, with the answer, if and only if the checkpoint is that of the log's pending question. |
| `Engine.StaleResumeDiverges` | graph/durable.go:445-465 | With a checkpoint of no pending question the log stays where it was, without the answer, and what the loop commits may not come next in it. |
| `Engine.ResumedAgainIsDeaf` | graph/durable.go:456-465 | Resumed again after only the first record of its import, a checkpoint's answer is not restored from the log. |
| `Engine.ImportedRunRefines` | graph/durable.go:442-465 | However often an imported run crashes, it moves by steps of the reference run from the checkpoint on, and if it finishes, then where that run ends. |
| `Engine.Restart` | graph/durable.go:355-371 | The unfinished run continues under its own steps from the last commit, an answered question with the answer in the log and no other, and ends in what the log says; its report has the earlier processes' executions and its own, each once. |
| `Engine.Recover` | graph/durable.go:302-372 | A finished run is returned untouched, a paused one hands its question out again untouched; only a run that does not exist, or whose run_start has another topology hash than the graph, is refused, without a report; any other is continued, with no answer but the log's; a finished result is the reference run's. The report is cumulative, for a continued run that fails too. |
| `Engine.LoggedIsTop` | graph/durable.go:286-288 | What a log reports are the top-level executions, no branches. |
| `Engine.ForkReplays` | graph/durable.go:408-439 | The forked log replays to the edited state at the same node, step and path, with nothing pending. |
| `Engine.ForkContinues` | graph/durable.go:374-380 | Forked with an identity edit, a run ends in the configuration in which the source ends that went on from that record with the same answers, however often either crashed. |
| `Engine.FindForkPoint` | graph/durable.go:397-405 | Finds exactly the record of that number if it is a commit, a run_start or a fork, and nothing otherwise. |
| `Engine.CopyPrefix` | graph/durable.go:430-434 | Copies the prefix in order, or a part of it and reports the failure. |
| `Engine.Fork` | graph/durable.go:381-440 | The source log stays as it was; the new one is a part of the source prefix, or that prefix, one fork record, and then no other fork and no answer; Fork writes only to a run that did not exist. Every refusal returns its own error and no report; otherwise the store failed it, or result and cumulative report are those of recovering the new log. |
| `Lifetime.Answer` | graph/run.go:103-140 | Answering the question handed out adds that answer to the log, once, or, only if the environment interfered, perhaps not at all. |
| `Lifetime.CarryOn` | graph/durable.go:290-297 | Recover adds no answer, keeps the log the one life of its run, and, unless the environment interferes, never turns a run of its own graph away. |
| `Lifetime.HearsTheGiven` | graph/durable.go:355-358 | The answers that executions were given are exactly those in the log, in order. |
| `Lifetime.Live` | graph/durable.go:12-24 | Over any number of calls, crashes, power losses and answers: the log holds of the answers handed in some, in order, and all of them if nothing interfered; and if a final state is ever returned, it is the one in which the reference run from that initial state ends on exactly the answers in the log, with that run's path. |
| `Temporal.StepNode` | graph/step.go:60-128 | One Step is one execution: the node's result and the static edge or what the route function returned, a declared target, or its question; with the attempt number it was told. Without interference it is an error only if the node is none, fails, or its route is invalid. |
| `Temporal.Workflow.Activity` | temporal/temporal.go:268-276 | An activity that returns leaves state, path, executions and attempt counts as one step of the reference run does. |
| `Temporal.Workflow.Turn` | temporal/temporal.go:263-289 | The inner loop re-runs a node with each answer, however often it asks, at the same step. |
| `Temporal.Workflow.Run` | temporal/temporal.go:227-292 | The workflow ends where the reference run halts on the same answers: same state, path and (node, step, attempt) list, the same question left, and the step limit at the same node; if an activity failed for reasons of its own, it stopped on the way there. |
| `Temporal.DriversAgree` | temporal/temporal.go:227-292 | A logged run that got as far as the answers take it, crashes and all, is in the configuration in which the workflow ends. |
| `Summary.Summarize` | graph/checkpoint.go:144-179 | The loop computes the fold over the records; the status is done, failed, paused, crashed or running exactly as the last record and the clock say. |
| `Summary.LastRecordTells` | graph/checkpoint.go:166-177 | The last record alone tells whether the run is finished or waits, and for which question. |
| `Summary.SummaryTellsRecover` | graph/checkpoint.go:144-179 | On every reachable log: done exactly when Recover does nothing, paused exactly when Recover hands out that question, failed exactly when it retries a failed run, with that error, and otherwise the run is open; commits, next and last node and cost are those that replay restores. |
| `Summary.SessionIsOfThisExecution` | graph/durable.go:360-364 | A session that Recover hands to a node was logged by an attempt at that very execution, after everything committed. |
| `Summary.RecoverHandsSession` | graph/durable.go:355-366 | The recover record is of the next execution, and hands a session over exactly if one was logged after everything committed, paused or forked, and then the last one. |
| `FileStore.ReadRecords` | graph/checkpoint.go:356-391 | The loop returns the records of the file, drops an unreadable last line, and reports any other as corruption. |
| `FileStore.CorruptExactly` | graph/checkpoint.go:372-390 | A file is corrupt exactly if some line that has its newline is neither blank nor a record. |
| `FileStore.TrimIs` | graph/checkpoint.go:373-373 | Trimming takes exactly the white space off both ends. |
| `FileStore.AfterLastNewline` | graph/checkpoint.go:314-328 | The backward scan finds the position after the last newline, whatever the chunk size. |
| `FileStore.RepairKeepsRecords` | graph/checkpoint.go:300-339 | Repair loses no record that a reader could see and leaves whole lines. |
| `FileStore.GoodReads` | graph/checkpoint.go:356-391 | A file that appends and crashes left is never corrupt. |
| `FileStore.EventIsSafe` | graph/checkpoint.go:263-339 | Each append, cut short at any byte of the repair or of its line, leaves a readable file that shows the earlier records, and the new one or not; a power loss leaves a readable file, or none, that shows the first of them. |
| `FileStore.HistoryIsSafe` | graph/checkpoint.go:263-391 | After any history of appends, crashes and power losses the file reads without corruption. |
| `FileStore.EveryAppendIsLoaded` | graph/checkpoint.go:263-391 | Without a power loss Load returns the records that landed, in order, every one whose Append returned among them. |
| `FileStore.LoadsOnlyGrow` | graph/checkpoint.go:329-337 | What a Load has returned, every later Load returns too, in the same place. |
| `FileStore.DurableSurvives` | graph/checkpoint.go:260-298 | A record that was fsynced before its Append returned, and all before it, survive every later power loss, if the file's name was secure by then. |
| `FileStore.DurableExactlyIfNamed` | graph/checkpoint.go:237-240 | What the Append of a durable record has returned for is in every later Load, whatever follows, if and only if the file's name is secure by then. |
| `FileStore.NamedIs` | graph/checkpoint.go:276-296 | The name is secure if and only if the Append that created the file synced the directory, or the file came through a power loss, and the file has not vanished since. |
| `FileStore.NameNeverSecured` | graph/checkpoint.go:276-296 | A durable record whose Append has returned and that a power loss takes, because an earlier Append had created the file and died. |
| `FileStore.LawfulCodec` | graph/checkpoint.go:263-272 | For any records there is a codec that meets what is assumed of JSON. |
| `PowerLoss.NoProgressIsLost` | graph/checkpoint.go:260-261 | After a power loss, if no durable record is later than one whose Append returned with the file's name secure, the log restores the same state, next node, step, path, commits, question and answer as before. |
| `PowerLoss.UnsyncedHoldNoProgress` | graph/checkpoint.go:260-261 | The kinds of record that are not fsynced, node_start and edge, can be missing at the end of a log without changing the run it restores. |
| `FileStore.CutTornTail` | graph/checkpoint.go:300-339 | The code's truncation or added newline is the specified repair, and it succeeds if nothing fails. |
| `FileStore.AppendRecord` | graph/checkpoint.go:263-298 | Every way an append can end is an event of the history model: the file created, the tail cut, a part of the line or all of it written, and, of a new file, the directory synced or not. If nothing fails, whatever was left in the file, the record's line is written, synced if it must be, and the directory synced exactly if the file is new. |
| `Compile.SoundIsWired` | graph/graph.go:229-398 | What satisfies all wiring rules meets the engine's assumptions. |
| `Compile.SoundExactly` | graph/graph.go:229-398 | A draft meets the wiring rules if and only if its graph is wired as the engine needs it, no conditional edge lacks targets, and a path of routes, declared targets and fan-outs leads from Start to every node and to End. |
| `Compile.CheckFanOut` | graph/graph.go:247-269 | No problem is reported exactly for a fan-out over distinct, known, plain nodes. |
| `Compile.CheckConds` | graph/graph.go:301-318 | No problem is reported exactly if every conditional edge is well formed. |
| `Compile.CheckRoutes` | graph/graph.go:321-339 | No problem is reported exactly if Start has a route and the other nodes have one unless they are branches. |
| `Compile.CheckReach` | graph/graph.go:341-375 | No problem is reported exactly if every node and End are reachable from Start. |
| `Compile.BindGroups` | graph/group.go:53-82 | No problem is reported exactly if every member of a group is a node, no group names one twice and no two groups share one. |
| `Compile.Visitor.Visit` | graph/graph.go:344-361 | The recursive walk stays within what is reachable and closes it under edges. |
| `Compile.Builder.AddNode` | graph/graph.go:110-133 | A node is added exactly if its name is new, not empty and not reserved; otherwise one problem is noted and nothing else changes. |
| `Compile.Builder.AddEdge` | graph/graph.go:172-179 | The first static edge of a node is kept, a second one is a problem. |
| `Compile.Builder.AddConditionalEdge` | graph/graph.go:184-191 | The first conditional edge of a node is kept, a second one is a problem. |
| `Compile.Builder.AddGroup` | graph/group.go:35-51 | A group is added exactly if it has a new, non-empty name and a member; otherwise one problem is noted and nothing else changes. |
| `Compile.Builder.Compile` | graph/graph.go:229-398 | A graph compiles exactly when no builder call failed, the step limit is positive, the node timeout is not negative, the groups are sound and the wiring is sound; then it is wired, all of it can be reached, and its branches are those of its fan-outs. |
| `Topology.ListEdges` | graph/events.go:190-206 | The loops list the edges node by node in declaration order. |
| `Topology.EdgesAreRoutes` | graph/events.go:193-206 | The edges listed are the routes and fan-outs of the graph and no others. |
| `Topology.EdgesAreDeclared` | graph/events.go:193-206 | An edge is listed exactly if it is declared, as a static one, a conditional one or one to a branch, and marked as what it is. |
| `Topology.Walk.Dfs` | graph/events.go:218-232 | The depth-first search turns everything it can reach black, and marks an edge into the stack. |
| `Topology.WalkMarksLoops` | graph/events.go:208-233 | Every marked edge closes a loop, and without the marked edges nothing reachable from Start lies on a cycle. |
| `Topology.Describe` | graph/events.go:155-235 | Topology lists exactly the declared edges of Start and the nodes, each marked as what it is, and its back marks are exactly such loop closers. |
| `Fleet.StepKeeps` | fleet/tasklist.go:43-78 | Each step of each worker, in any interleaving, keeps the scheduler's invariant. |
| `Fleet.RunKeeps` | fleet/fleet.go:119-151 | A whole run on any schedule keeps the invariant, takes no claim and no result back, and counts each task's cost once. |
| `Fleet.CheckDecides` | fleet/fleet.go:127-133 | A worker that looks at the cap goes on to claim exactly if what the tasks finished so far cost is below it, and leaves otherwise. |
| `Fleet.LookDecides` | fleet/fleet.go:124-126 | A worker that looks at the context goes on exactly if it was not cancelled so far. |
| `Fleet.OneLateClaim` | fleet/fleet.go:123-148 | Of two claims of a worker, the first was made while the finished tasks cost less than the cap. |
| `Fleet.ClaimedOnce` | fleet/tasklist.go:43-54 | A task is claimed once, by one worker, when all it depends on has succeeded. |
| `Fleet.SomebodyCanStep` | fleet/tasklist.go:55-68 | No deadlock: while a worker has not exited, some worker can step. |
| `Fleet.EnabledMay` | fleet/fleet.go:123-148 | A worker that is not waiting always has a step to take. |
| `Fleet.StepBurnsFuel` | fleet/fleet.go:119-151 | Every step uses up a measure, so that no schedule goes on forever. |
| `Fleet.EverythingClaimed` | fleet/tasklist.go:31-69 | In an acyclic batch with known dependencies and no failure, workers that drained the queue left nothing. |
| `Fleet.TaskList.TryClaim` | fleet/tasklist.go:43-69 | One pass of claim takes a ready task, or leaves, or waits, each exactly when it should. |
| `Fleet.TaskList.Complete` | fleet/tasklist.go:71-78 | A completed task is counted and recorded with its outcome. |
| `Fleet.TaskList.Unfinished` | fleet/tasklist.go:80-88 | Lists each unclaimed task once. |
| `Fleet.Batch.Turn` | fleet/fleet.go:123-148 | The worker loop's code takes the steps of the interleaving model. |
| `Fleet.Batch.RunWorkers` | fleet/fleet.go:119-151 | However workers are scheduled and whenever the context is cancelled, all exit, and what they did is a run of the model on some schedule of worker steps. |
| `Fleet.Run` | fleet/fleet.go:100-171 | On the schedule that happened, the model's run ends with every worker gone. Every distinct task id has exactly one result, that run's own or, exactly if it is unclaimed, skipped; a task that ran has its result after good ones of all it depends on; the cost reported is what the tasks of the schedule cost; workers go on to claim exactly below the cap, so that none claims two tasks after it is reached; unless it was or the context was cancelled, what is skipped depends on a task without a good result, and an acyclic batch without failures has nothing skipped. |
| `Matching.AnyOrder` | eval/match.go:118-146 | True exactly when every expected call can be given an actual call of its own that it matches, for every relation. |
| `Matching.Try` | eval/match.go:127-140 | Finds an augmenting path or leaves the owners as they were and the calls seen a dead end; ends on the number of unseen calls. |
| `Matching.DeadEnd` | eval/match.go:141-145 | A dead end violates Hall's condition, so no assignment exists. |
| `Matching.TooFewChoices` | eval/match.go:118-121 | Expected calls that together fit fewer actual calls than there are of them cannot be assigned. |
| `Matching.InOrder` | eval/match.go:101-108 | The greedy scan succeeds exactly when a strictly increasing placement exists. |
| `Matching.Exact` | eval/match.go:91-100 | True exactly for equal lengths and matching pairs. |
| `Matching.StricterMatches` | eval/match.go:84-113 | An exact match is an in-order match, an in-order match is an any-order match. |
| `Matching.SubsetReflexive` | eval/match.go:197-229 | Every JSON value contains itself. |
| `Matching.SubsetTransitive` | eval/match.go:197-229 | Containment of JSON values composes. |
| `Matching.SubsetIs` | eval/match.go:197-229 | A JSON value is contained in another exactly if each of its places is met there: null by anything, an object by an object, an array by one as long, any other value by itself. |
| `Matching.NameMatchesIs` | eval/match.go:158-168 | A bare name matches an actual one exactly if they are equal or, with MCPNames, the actual one is it with an mcp prefix whose server part holds no double underscore. |
| `Matching.CallMatchesIs` | eval/match.go:148-195 | A call matches exactly if its name does and its arguments do, case by case: none, invalid JSON, subset or equal values. |
| `Matching.LooserCallMatches` | eval/match.go:148-195 | Turning on an option never turns a matching call into a mismatch. |
| `Matching.MatchTrajectory` | eval/match.go:84-113 | Each mode decides what it declares over matching calls: equal lengths and pairwise matches, a strictly increasing placement, or a placement on distinct calls. |
| `Matching.OptionsOnlyLoosen` | eval/match.go:60-113 | Turning on ArgsSubset, MCPNames or ignoreArgs never turns a trajectory's match into a mismatch, in any mode. |
| `Glob.Glob` | permissions/permissions.go:371-395 | The backtracking matcher ends and returns true exactly when the pattern matches under the recursive meaning of `*` and `?`. |
| `Glob.StarIsAnyRun` | permissions/permissions.go:371-371 | In that meaning a star stands for any run: it matches exactly if the rest matches some suffix. |
| `Glob.PlainPart` | permissions/permissions.go:371-371 | What comes before the first star takes as many characters, each the same or any one for a question mark; without a star that is all of the text. |
| `Glob.Backtrack` | permissions/permissions.go:384-387 | Giving the last star one more character loses no match. |
| `Glob.NewStar` | permissions/permissions.go:381-383 | Forgetting earlier stars at a new one loses no match. |
| `Glob.PrefixFormIsGlob` | permissions/permissions.go:363-369 | The legacy prefix form means the prefix alone, or the prefix as a glob, a space and anything. |
| `Glob.ArgGlob` | permissions/permissions.go:363-369 | A pattern that ends in `:*` matches the text before that, or as the glob with a space and a star for it; any other as a glob. |
| `Rouge.LcsLength` | eval/text.go:74-90 | The two swapped rows compute the recursive LCS length. |
| `Rouge.LcsIsBound` | eval/text.go:67-91 | No common subsequence is longer than that length. |
| `Rouge.LcsIsAttained` | eval/text.go:67-91 | Some common subsequence is that long. |
| `Rouge.UnigramOverlap` | eval/text.go:53-64 | The counting loop computes the size of the multiset intersection. |
| `Rouge.LcsWithinOverlap` | eval/text.go:47-92 | A longest common subsequence is no longer than the unigram overlap. |
| `Rouge.FMeasureIs` | eval/text.go:26-33 | The F-measure of precision and recall is twice the overlap over the summed lengths. |
| `Rouge.RougeL` | eval/text.go:67-91 | RougeL is 1 for two empty texts, 0 for one, and otherwise twice the length of a longest common subsequence over the summed lengths. |
| `Rouge.Rouge1` | eval/text.go:47-65 | Rouge1 is 1 for two empty texts, 0 for one, and otherwise twice the size of the multiset intersection over the summed lengths. |
| `Rouge.RougeOrder` | eval/text.go:26-91 | RougeL never exceeds Rouge1, both lie in 0..1 and are symmetric, and RougeL is 1 exactly for equal token lists. |
| `TimeSplit.UnionLen` | eval/run.go:356-373 | The merging loop computes the measure of the union of the spans. |
| `TimeSplit.CoveredIs` | eval/run.go:356-373 | That union holds an instant exactly if some span does. |
| `TimeSplit.Builder.AddResult` | eval/run.go:282-293 | A result adds the span from its tool's first use, if it is not earlier. |
| `TimeSplit.Builder.Finish` | eval/run.go:317-341 | In a timed run with a positive last offset tool time plus model time is the duration exactly, so the clamp at zero never acts. |
| `PassAtK.PassAtK` | eval/evaluate.go:118-137 | The product loop computes one minus C(n-c,k)/C(n,k), k at most n. |
| `PassAtK.PassAtIs` | eval/evaluate.go:118-137 | The estimate is the share, of the draws of k from the runs, that hold a passing run; 0 without runs. |
| `PassAtK.ChooseIs` | eval/evaluate.go:118-121 | The number of draws is n! over k! (n-k)!. |
| `PassAtK.LeaveOneOut` | eval/evaluate.go:132-136 | Of the draws of k from n, n-k in n leave out a given run: one factor of the product. |
| `PassAtK.PassAtIsMonotone` | eval/evaluate.go:118-121 | The estimate lies in 0..1 and falls neither in k nor in the number of passing runs. |

## Left out

- Engine.Resume: what a run does after a Resume with a checkpoint that is not that of its pending question, beyond `Engine.StaleResumeDiverges`. An empty run id, which stands for a fresh one.
- Engine.Recover: a graph edited since the run started, which AllowTopologyChange admits; one graph stands for both, so what a run does on the edited graph is not stated.
- Engine.Run: runs without a checkpoint store, whose loop is the same without the appends.
- Engine.Fork: a state edit or a state that does not marshal to JSON.
- Engine.Exec: observers, gates and node timeouts, beyond that an attempt may fail; costs added after a node has returned.
- LogShape.AttemptsAreCounted: imported runs, whose first process counts from the checkpoint's path and later ones from the log's.
- Recover's Interrupted carries no review items, as they are not logged; items are not modelled.
- Two processes that recover one run at once: outside the code's contract.
- How the groups of a graph are drawn (graph/group.go:84-135).
- How the topology hash is computed; labels and node kinds; nil functions in the builder.
- Temporal.Workflow.Run: activity retries and heartbeats, cancellation, queries, and the costs in its result; an activity is one Step.
- FileStore.CutTornTail: reads that fail, and white space beyond ASCII.
- MemStore, List, the sorting of summaries, and the staleness clock, which is a parameter.
- Report durations and step errors; the report's steps, path and costs are modelled.
- Fleet.Run: the reason text of a skipped task, the counts of failed and skipped tasks, OnResult, and fleets without workers, which the constructor refuses.
- Tokenizing, JSON parsing and regular expressions; arguments come trimmed, and JSON decoding is a parameter.
- Glob.ArgGlob: strings are sequences of runes.
- Floating-point rounding in scores, costs and pass@k.
- Runners, workspaces, transports, permission policies, prompts, judges, budgets and the web interface.
