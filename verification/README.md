# TailTask, verified

TailTask lets one computer (the controller) run tasks on another (the agent). This
project is a Dafny model of the parts whose correctness depends on interleavings,
lost messages, crashes and arbitrary input, with proofs that they keep what the
program promises. `dafny verify dfyconfig.toml` checks everything.

The model has five parts.

**The task engine of the agent.** `Tasks.dfy` holds a task row with its append-only
event log and what each store transaction does to it; `AgentStore.dfy` is the store
itself, a class whose methods are those transactions. `Engine.dfy` adds the program
counter of a task's executor, its cancellation token, the output its process writes
and a counter of process starts, and gives every step that executor, runner,
cancellers and recovery can take on one task. `System.dfy` puts many tasks together
with the runner loop, the admission lock, any number of submit, cancel and stop
calls, faults, crashes, reopening and recovery; a run is any sequence of steps, and
every gap between two store calls is a point where others may act. `Safety.dfy`
proves the invariant, `Theorems.dfy` states what follows for every reachable state,
`Endings.dfy` how tasks end against how their processes did, `Queue.dfy` in which order
they start, `Progress.dfy` that whatever has begun can be brought to its end,
`Refinement.dfy` carries the steps out with the methods of the stores, and
`Counterexamples.dfy` has three runs that end where one might not expect it.

**The controller and the network.** `ControllerStore.dfy` is the controller's store.
`Protocol.dfy` runs controller commands against the whole agent over a network in
which a request may arrive never, late or several times and an answer may be lost or
used late, with restarts on both sides; its end-to-end theorem joins both stores.
`Views.dfy` says what the controller is told of its tasks, and `Delivery.dfy` has a run
in which a lost answer is made good.
`Replica.dfy` follows one task's event log into the controller's cache and into any
number of polling windows; that the log is numbered without gaps and only grows is
`Theorems.RowsAreReplays` and `Safety.NextForward`, and `Joined.dfy` runs it together
with the whole world. `Wire.dfy` has the JSON text of a page and its length, `CatchUp.dfy` says
when a window reaches the end of a log. `Ordering.dfy` has the ordered queries.

**The output pipeline.** `Utf8.dfy` defines UTF-8 (section 4 of RFC 3629) and proves
the incremental decoder, with replacement of maximal subparts (section 3.9 of the
Unicode Standard). `Pipe.dfy` has the filter for escape sequences (sections 5.4 and
5.6 of ECMA-48), proved for every text, the line splitter, and the reading loop, proved to send the same
pieces however the bytes are cut into reads. `Retention.dfy` says which of them a row
keeps of two streams that share one budget, `Outputs.dfy` carries that to every
reachable task, and `LargeOutput.dfy` has two runs with much output. `Text.dfy` has the
basic types.

**Result files.** `Snapshot.dfy` is the bounded, all-or-nothing copy of a result
directory, `Trees.dfy` says under which names it lists the files; `Results.dfy` has the records and what the controller accepts;
`Range.dfy` has range requests (sections 14.1.2 and 14.4 of RFC 9110) down to the
decimal digits; `Download.dfy` is the resumable download.

**Two smaller machines.** `Pairing.dfy` is the pairing of controllers, `Repair.dfy`
the maintenance tasks of the application over storage that may fail at any call.

Five expectations one might have are false of the code. For each there is a reachable
run or a concrete request, and the exact condition under which the expectation holds:

- a drain leaves no task behind: what it leaves is exactly what was created since the
  last claim, which found nothing, and has not been cancelled in the queue
  (`Theorems.DrainExactly`, `Counterexamples.LateTaskStaysQueued`);
- what a task retains of a stream is a beginning of the stream: only if, once a piece of
  the stream has been dropped, no later piece of it is short enough for what both
  streams, which share one budget, have left when it arrives
  (`Outputs.RetainedIsPrefixIff`, `LargeOutput.RetainedIsNoPrefix`);
- a task that has ended has no pending result: while the agent is up, only if no results
  were wanted, or its end was not recorded while cancelling before a launch, and its
  executor is not just collecting and has not failed between recording the end and
  recording the results (`Theorems.PendingExactly`, `Counterexamples.EndedButPending`,
  `Counterexamples.EndedUncollected`);
- a window catches up with a quiet log: only if the pages from the end of the cache, or
  from the last place before it that whole pages lead to, take at most 2 MiB each
  and hold no text of more than 65536 bytes (`CatchUp.EndReachableIff`,
  `LargeOutput.NothingShown`; the texts are never too long if errors quoted from the
  system are not, `Theorems.EventTextsFit`);
- every range request of RFC 9110 is served: only one int-range, in lower case, with
  a last position below two to the power 64 (`Range.ServedExactly`, and an example of
  each refusal after it).

## Model

| member | source | states |
|---|---|---|
| Utf8.WholeIffEncoded | crates/remote/src/runner.rs:341-351 | a character is found at the front of the bytes exactly when its encoding stands there |
| Utf8.CutIffViable | crates/remote/src/runner.rs:343-350 | the rest is reported as unfinished exactly when more bytes could still make it a character |
| Utf8.BrokenIsMaximalSubpart | crates/remote/src/runner.rs:343-357 | the bytes replaced by one replacement character are the longest beginning of a character there, or one byte |
| Utf8.FrontStable | crates/remote/src/runner.rs:341-351 | what has been decided about the front does not change when more bytes arrive |
| Utf8.DecodeSplit | crates/remote/src/runner.rs:338-413 | decoding in two parts, carrying the unfinished rest, is decoding the whole |
| Utf8.DecodeEncoded | crates/remote/src/runner.rs:340-357 | every encoded text decodes to itself with nothing left over |
| Utf8.ParseDecodes | crates/remote/src/runner.rs:341-357 | one call of from_utf8 plus one replacement is a step of the decoder |
| Utf8.ParseUnfinished | crates/remote/src/runner.rs:343-350 | an unfinished rest is shorter than four bytes |
| Utf8.ByteLenIsEncoded | crates/remote/src/runner.rs:392 | the length of a text is the number of bytes of its encoding |
| Pipe.PassesIff | crates/remote/src/runner.rs:358-365 | a character passes the filter if and only if it is newline, tab, from 0x20 to 0x7E, or from 0xA0 on |
| Pipe.VisibleIsPrintable | crates/remote/src/runner.rs:358-390 | no control character but newline and tab passes the filter |
| Pipe.VisibleKeepsPrintable | crates/remote/src/runner.rs:358-365 | text without control characters passes unchanged |
| Pipe.VisibleIdempotent | crates/remote/src/runner.rs:358-390 | filtering filtered text changes nothing |
| Pipe.FilterKeepsGlyphs | crates/remote/src/runner.rs:358-390 | of text built from characters, control sequences, command strings and escape pairs exactly the characters that pass remain, whatever follows |
| Pipe.GlyphsOfEveryText | crates/remote/src/runner.rs:358-390 | every text is built of such parts, the last perhaps unfinished, and exactly its glyphs remain |
| Pipe.SplitUnique | crates/remote/src/runner.rs:391-410 | a text has only one division into pieces that are sent as early as possible |
| Pipe.SplitBounds | crates/remote/src/runner.rs:391-410 | pieces have 1 to 8195 bytes, a newline only at the end, and all but the last end in one or have 8192 bytes at least |
| Pipe.PiecesSplit | crates/remote/src/runner.rs:324-414 | the pieces are the division of the filtered, decoded input |
| Pipe.PiecesGrow | crates/remote/src/runner.rs:391-400 | more input only adds pieces after those already sent |
| Pipe.CleanTextPasses | crates/remote/src/runner.rs:324-414 | encoded text without control characters comes through whole |
| Pipe.ShownTextPasses | crates/remote/src/runner.rs:324-414 | encoded text of newlines, tabs and characters from 0x20 to 0x7E and from 0xA0 on comes through whole |
| Pipe.PassDecodes | crates/remote/src/runner.rs:340-405 | one pass of the inner loop takes one step of the decoder over everything still to come |
| Pipe.FilterText | crates/remote/src/runner.rs:354-400 | the character loop sends the next pieces, as many as the receiver takes |
| Pipe.DecodePending | crates/remote/src/runner.rs:339-406 | the inner loop ends, leaves at most an unfinished rest, and sends the next pieces |
| Pipe.ReadPipe | crates/remote/src/runner.rs:324-414 | for any cut into reads exactly the pieces of the whole input are sent, up to what the receiver takes; text of newlines, tabs and characters from 0x20 to 0x7E and from 0xA0 on arrives as it was written |
| Tasks.AcceptedSound | crates/core/src/remote/storage.rs:98-101 | a new row agrees with its log |
| Tasks.ClaimedSound | crates/core/src/remote/storage.rs:163-179 | claiming keeps row and log in agreement |
| Tasks.TransitionSound | crates/core/src/remote/storage.rs:195-231 | every state change keeps state, error and result status a replay of the log |
| Tasks.OutputSound | crates/remote/src/runner.rs:250-298 | output keeps byte count, budget, truncation flag and progress, which is read from the text of the event, a replay of the log |
| Tasks.ReportedProgress | crates/remote/src/runner.rs:311-322 | a reported number is between 0 and 100 |
| Tasks.ProgressIff | crates/remote/src/runner.rs:311-322 | a line reports a number if and only if it is the marker, a JSON text with a percentage from 0 to 100, and line ends |
| Tasks.KeptIffFits | crates/remote/src/runner.rs:262-296 | a piece is retained if and only if it fits the budget |
| Retention.AfterTheFirst | crates/remote/src/runner.rs:262-296 | after the first dropped piece of a stream nothing of the stream is kept until one of its pieces fits again |
| Retention.KeptIsPrefixIff | crates/remote/src/runner.rs:250-298 | over any interleaving of two streams, what is kept of one is a beginning of it if and only if, once one of its pieces has been dropped, no later one fits what both streams have left when it arrives |
| Retention.FedKeeps | crates/remote/src/runner.rs:250-298 | a row given any interleaving of two streams counts and retains of each exactly the pieces that fit what both have left |
| Retention.SizeOfBoth | crates/remote/src/runner.rs:262-263 | the bytes counted are those kept of both streams |
| Retention.RetainedIsPrefixIff | crates/remote/src/runner.rs:250-298 | the same condition for the row of a task that is given any interleaving of two streams |
| Outputs.RecordedInOrder | crates/remote/src/runner.rs:250-298 | in every reachable state the pieces recorded of a task interleave those taken from its two readers, and byte count, retained texts and truncation flag are what recording them in that order makes of the row |
| Outputs.RetainedIsPrefixIff | crates/remote/src/runner.rs:250-298 | what a reachable task retains of a stream is a beginning of the stream if and only if, once a piece of it was dropped, no later one fitted what both streams had left |
| LargeOutput.RetainedIsNoPrefix | crates/remote/src/runner.rs:263-297 | a reachable running task that has dropped a piece of its reader and kept a later one |
| Tasks.CollectedSound | crates/remote/src/artifacts.rs:29-50 | recording a result keeps row and log in agreement |
| Tasks.RecoveryConverges | crates/core/src/remote/storage.rs:233-276 | recovery stopped between its steps and started again ends where one pass ends |
| Tasks.RecoverySettles | crates/core/src/remote/storage.rs:233-276 | recovery leaves no active task and no pending result of an ended one, and touches nothing else |
| Tasks.RecoveredSound | crates/core/src/remote/storage.rs:233-276 | recovery keeps row and log in agreement |
| AgentStore.NextExists | crates/core/src/remote/storage.rs:163-169 | any non-empty part of the queue has a first task |
| AgentStore.NextIsUnique | crates/core/src/remote/storage.rs:163-165 | the queue has one first task |
| AgentStore.PageSlice | crates/core/src/remote/storage.rs:138-146 | a page of events is a slice of the log, at most 200 long |
| AgentStore.RecoveryRestarts | crates/core/src/remote/storage.rs:233-276 | over the whole table, recovery broken off anywhere and repeated gives the same rows |
| AgentStore.AgentStore.Accept | crates/core/src/remote/storage.rs:55-111 | the exact answer: invalid, then unauthorized, then the known task or a conflict, then full, then created, and the created row in full; a repeat finds its task even when the queue is full |
| AgentStore.AgentStore.Events | crates/core/src/remote/storage.rs:132-156 | the next page of the log after a number |
| AgentStore.AgentStore.ClaimNext | crates/core/src/remote/storage.rs:157-181 | takes out of the queue the task created first, of those created at the same time the one with the smallest id, and writes its event |
| AgentStore.AgentStore.Transition | crates/core/src/remote/storage.rs:182-232 | changes the row if its state is one of those expected and not final: state, exit code, error and result status as given, one event with the message |
| AgentStore.AgentStore.InsertEvent | crates/core/src/remote/storage.rs:279-287 | an event is numbered one above the highest number in the log |
| AgentStore.AgentStore.KeepOutput | crates/remote/src/runner.rs:279-296 | the writes of the columns and of the event for a piece that fits |
| AgentStore.AgentStore.RecordOutput | crates/remote/src/runner.rs:250-298 | the writes of one transaction, column by column, keep the row a replay of its log, retain the piece if and only if it fits, and add the event for it |
| AgentStore.AgentStore.RecordResults | crates/remote/src/artifacts.rs:29-50 | status and event with its message are written together and keep the row a replay of its log |
| AgentStore.AgentStore.Recover | crates/core/src/remote/storage.rs:233-276 | both parts of recovery over the table |
| AgentStore.AgentStore.InterruptActive | crates/core/src/remote/storage.rs:234-253 | every task that was active is marked as needing recovery |
| AgentStore.AgentStore.ResolvePending | crates/core/src/remote/storage.rs:254-275 | every pending result of an ended task becomes incomplete |
| Queue.CreatedWhenAccepted | crates/core/src/remote/storage.rs:90-101 | over every run a row keeps the time at which its task was accepted |
| Queue.FirstComeFirstServed | crates/core/src/remote/storage.rs:163-165 | over every run, when a task is claimed no other waits that was accepted earlier, or at the same time with a smaller id |
| Engine.StepKeeps | crates/remote/src/runner.rs:100-241 | every step of runner, executor, canceller, crash and recovery keeps the invariant of a task |
| Engine.StepForward | crates/core/src/remote/storage.rs:182-232 | every step only appends to the log and never raises the rank of the state |
| Engine.ForwardMeans | crates/core/src/remote/model.rs:252-262 | going forward keeps an ended task ended and adds no more state events than the rank falls |
| Engine.StepMoves | crates/core/src/remote/storage.rs:202-231 | only a claim makes a task active, and no step takes back a process start |
| Engine.StepCounts | crates/core/src/remote/storage.rs:202-231 | a step adds exactly one state event if it changes the state, and none otherwise |
| Engine.DeliveredStays | crates/remote/src/runner.rs:56-86 | a cancellation that has been delivered stays delivered whatever happens next |
| Engine.TokenDelivers | crates/remote/src/runner.rs:81-83 | looking up the token delivers the cancellation |
| Engine.EarlyCancellationNeverSpawns | crates/remote/src/runner.rs:136-150 | a task cancelled before its executor looked starts no process |
| Engine.EarlyEndLeavesPending | crates/core/src/remote/storage.rs:205-213 | an end before the process exists leaves the result pending if and only if the task was being cancelled |
| Engine.LittleAfterTheEnd | crates/remote/src/runner.rs:226-240 | after the last state event at most one results event follows |
| Engine.LogGrammar | crates/remote/src/runner.rs:136-241 | the order of events, the place of output and of the end, in any log that meets the invariant |
| Engine.TerminalEvent | crates/remote/src/runner.rs:226-240 | the final state in the row is the one of the final event |
| Engine.OutputKept | crates/remote/src/runner.rs:176-214 | when a task has ended each stream retains a subsequence of its pieces, and all of them if nothing was dropped |
| Engine.OutputTextsAreShort | crates/remote/src/runner.rs:391-400 | every retained text is one piece of a reader |
| Safety.NextKeeps | crates/remote/src/runner.rs:56-135 | every step of the whole agent keeps the invariant |
| Safety.RunKeeps | crates/remote/src/runner.rs:100-135 | so does every run |
| Safety.ReachableInv | crates/remote/src/service.rs:149-173 | every reachable state meets the invariant |
| Safety.NextForward | crates/core/src/remote/storage.rs:182-232 | every step of the agent takes every task forward |
| Safety.CellStepOf | crates/remote/src/runner.rs:56-135 | what a step of the agent does to a task is one of the steps of that task |
| Refinement.AcceptStep | crates/core/src/remote/storage.rs:55-111 | a call of accept on the rows of a state leaves the rows of a next state, and its answer is the one the submission sees there |
| Refinement.ClaimStep | crates/core/src/remote/storage.rs:157-181 | the same of a claim and the next step of the runner |
| Refinement.ExecutorStoreStep | crates/remote/src/runner.rs:136-241 | each store call of an executor leaves the rows of its step; what its last one records of the process is `Endings.EndOfProcess` |
| Refinement.CancelStoreStep | crates/remote/src/runner.rs:56-86 | the same of the store calls of a cancellation |
| Refinement.PrepareStep | crates/core/src/remote/storage.rs:384-433 | the row that prepare finds or writes is the one the command goes on with |
| Refinement.MarkStep | crates/core/src/remote/storage.rs:434-437 | marking leaves the histories of the next state |
| Refinement.RecordStep | crates/core/src/remote/storage.rs:438-448 | check and write of an answer, taken together, leave the histories of the state after both steps |
| Theorems.AtMostOnce | crates/core/src/remote/storage.rs:77-110 | a request of a controller has at most one task, and its process is started at most once |
| Theorems.RecoveryBegins | crates/core/src/remote/storage.rs:234-239 | opening lists exactly the active tasks |
| Theorems.RecoveryInSteps | crates/core/src/remote/storage.rs:240-276 | recovery taken one transaction at a time ends in the rows of the whole recovery |
| Theorems.BrokenRecovery | crates/core/src/remote/storage.rs:233-276 | recovery broken off by a crash between any two transactions still leads to the same rows |
| Theorems.RowsAreReplays | crates/core/src/remote/storage.rs:279-287 | events are numbered 1 to n, the columns are a replay of them, and there are at most five state events |
| Theorems.LogsFollowTheGrammar | crates/remote/src/runner.rs:136-241 | every log is queued, then cancelled or starting, and so on to one end and at most one result |
| Theorems.OutputIsKept | crates/remote/src/runner.rs:250-298 | retained output is within 16 MiB, equals the byte count, in order, complete unless truncated, with one truncation event if and only if flagged |
| Theorems.OutputEventsAreShort | crates/remote/src/runner.rs:391-400 | every output event has 1 to 8195 bytes, below the limit of the controller |
| Theorems.EventTextsFit | crates/core/src/remote/storage.rs:487-490 | every text of every log is within any limit from 8195 bytes on, if the errors quoted from the system are; with 65536 the length check never refuses an event |
| Theorems.NoLostCancellation | crates/remote/src/runner.rs:56-86 | after a cancel call a task still being cancelled has an executor that has not looked yet or whose token is cancelled |
| Theorems.PendingExactly | crates/core/src/remote/storage.rs:205-213 | while the agent is up, an ended task has a pending result if and only if results were wanted and its end was recorded while cancelling before a launch had succeeded, or its executor is collecting, or failed after recording the end and before recording the results; a task without an executor never has one |
| Theorems.CleanEnd | crates/remote/src/runner.rs:136-241 | an executor that ended without an error has seen its task to an end and did not leave results unrecorded |
| Endings.EndOfProcess | crates/remote/src/runner.rs:215-237 | in every reachable state a task whose process exited succeeded, failed, was cancelled or timed out exactly as the process exited and what was noticed before, with its exit code and message |
| Endings.EndWithoutProcess | crates/remote/src/runner.rs:139-165 | a task that ended without its process having exited was cancelled, failed or needs recovery |
| Progress.ExecutorCanEnd | crates/remote/src/runner.rs:136-241 | from every reachable state each executor can bring itself to its end, without an error if it has not failed |
| Progress.EveryEndIsPossible | crates/remote/src/runner.rs:187-237 | a watched process may exit in any way or be stopped for its token or its deadline, and the task ends accordingly |
| Progress.RunnerGoesOn | crates/remote/src/runner.rs:100-135 | a runner that has not returned can always go on without a failing claim |
| Progress.DrainCanFinish | crates/remote/src/runner.rs:100-135 | after a stop request, if nothing fails, runner and executors alone can finish the work and the runner returns |
| Progress.CancelCanFinish | crates/remote/src/runner.rs:56-86 | a cancel call that meets no fault returns, or refuses a task that is not there or not its controller's |
| Progress.StopCanFinish | crates/remote/src/runner.rs:87-99 | a stop request that holds the lock and meets no fault succeeds |
| Progress.AgentCanStart | crates/core/src/remote/storage.rs:233-276 | from every state after a crash the agent can recover, start and accept tasks |
| Theorems.AbortLeavesNothingRunnable | crates/remote/src/runner.rs:87-99 | after an abort no task is queued, starting or running |
| Theorems.StoppedAcceptsNothing | crates/remote/src/service.rs:154-158 | after the stop signal no step adds a task |
| Theorems.AfterStop | crates/remote/src/runner.rs:87-99 | over any further run of the process no task is accepted and, after an abort, none is ever runnable |
| Theorems.Capacity | crates/remote/src/runner.rs:100-130 | at most one to four tasks are active, faults included, and at most 100 wait |
| Theorems.PlacesAreConfigured | crates/remote/src/runner.rs:52 | the number of places is the configured one, brought into the range from 1 to 4 |
| Theorems.RepeatsAreAnswered | crates/core/src/remote/storage.rs:77-89 | a repeat of an accepted request can only be answered with its task, whatever the queue, unless the controller is revoked or the store fails |
| Theorems.FaultShutsTheDoor | crates/remote/src/runner.rs:123-135 | after an executor has failed, submissions not yet checked are refused and no task is claimed, for the rest of the process |
| Theorems.Drained | crates/remote/src/runner.rs:103-122 | when the runner has returned without fault nothing is active, and nothing is queued if the last empty claim came after the stop |
| Theorems.NoPlaceIdle | crates/remote/src/runner.rs:103-107 | the runner waits with a free place only if the last claim found the queue empty; what waits was created since |
| Theorems.DrainExactly | crates/remote/src/runner.rs:103-122 | the tasks created since the last claim, which found nothing, are queued or were cancelled in the queue, and a drain leaves behind exactly those not cancelled |
| Counterexamples.LateTaskStaysQueued | crates/remote/src/runner.rs:103-122 | a run in which a task accepted in between stays queued |
| Counterexamples.EndedButPending | crates/core/src/remote/storage.rs:205-213 | a run after which a task has ended without a fault and its result is pending |
| Counterexamples.EndedUncollected | crates/remote/src/artifacts.rs:29-50 | a run after which a process has ended well and its result is pending, because recording the results failed |
| Theorems.StateChangesBounded | crates/core/src/remote/storage.rs:182-232 | over any run the state changes of tasks are at most the sum of their ranks |
| ControllerStore.ControllerStore.SaveConnection | crates/core/src/remote/storage.rs:350-362 | a peer keeps its connection id and an id its peer: another id for a known peer is refused, and so is a taken key or credential |
| ControllerStore.ControllerStore.Prepare | crates/core/src/remote/storage.rs:384-433 | the exact answer: invalid, unknown connection, other target, then the row of this connection and request or a conflict, then a new row |
| ControllerStore.ControllerStore.MarkUnknown | crates/core/src/remote/storage.rs:434-437 | a row is marked before its request is sent, and an accepted one stays accepted |
| ControllerStore.ControllerStore.RecordTask | crates/core/src/remote/storage.rs:438-448 | an answer is recorded only if request, controller and task id agree, and the whole new row |
| ControllerStore.ControllerStore.CacheEvents | crates/core/src/remote/storage.rs:480-494 | a page is kept whole or not at all, and known events are not overwritten |
| ControllerStore.ControllerStore.CacheArtifacts | crates/core/src/remote/storage.rs:495-535 | a list of files replaces the earlier one if and only if all of it is acceptable |
| ControllerStore.ControllerStore.Events | crates/core/src/remote/storage.rs:544-549 | the first 200 cached events after a number, in order |
| Protocol.HappenKeeps | src-tauri/src/remote.rs:105-131 | every step of commands, network, restarts and agent keeps the joint invariant |
| Protocol.PlayKeeps | src-tauri/src/remote.rs:105-131 | so does every run, and rows only go forward |
| Protocol.EndToEnd | src-tauri/src/remote.rs:110-130 | a prepared row has no task; an accepted one names the task of its request; there is at most one, started at most once |
| Protocol.SubmissionsGoForward | crates/core/src/remote/storage.rs:434-448 | accepted never reverts, and the task a row names is written once |
| Views.AnswersTheRow | crates/remote/src/service.rs:149-191 | an answer about a task says what its row says, except that a task whose executor failed may be shown as needing recovery |
| Views.RecordedViewWasTrue | crates/core/src/remote/storage.rs:438-448 | over every run of both sides the view a controller keeps names its own task and request, in a state that task has been in, or needs recovery ahead of it, when only recovery can end it |
| Delivery.DeliveredOnce | src-tauri/src/remote.rs:60-148 | a run in which the answer is lost, the controller restarts and asks again, and the submission is recorded with the one task |
| Ordering.InOrder | crates/core/src/remote/storage.rs:544-549 | the rows above a number in ascending order |
| Replica.SetAll | src/components/Remote.tsx:42 | a later event replaces an earlier one of the same number |
| Replica.TaskModal.Finish | src/components/Remote.tsx:42 | the window becomes the merged last 2000 events and the cursor the last number shown |
| Replica.MergeMovesOn | src/components/Remote.tsx:42 | merging the next stretch of a log gives the last 2000 events up to its end |
| Replica.AnswerIsSlice | crates/core/src/remote/storage.rs:138-146 | the agent's page is the stretch of the log after the cursor |
| Replica.LocalPageIsSlice | crates/core/src/remote/storage.rs:544-549 | the cached page is that stretch as far as the cache reaches |
| Replica.CachingExtends | crates/core/src/remote/storage.rs:487-493 | caching a page that starts inside the cache leaves no gap |
| Replica.NextHolds | src-tauri/src/remote.rs:149-188 | every step of every refresh keeps the cache a prefix of the log |
| Replica.GaplessReplica | src-tauri/src/remote.rs:149-188 | over every run the cache is a prefix of the log and each window is its last 2000 events up to a cursor within the cache |
| Replica.RefreshesCatchUp | src-tauri/src/remote.rs:149-188 | each stored refresh moves the cursor by 200 or to the end, whatever others do meanwhile |
| CatchUp.RefreshStoredIff | crates/remote/src/client.rs:297-311 | an undisturbed refresh is stored if and only if its page takes at most 2 MiB of JSON and no text of it more than 65536 bytes |
| Wire.PageBytesAreOfText | crates/core/src/remote/model.rs:293-300 | the size of a page is the length of its JSON text in bytes |
| CatchUp.FailedRefresh | src-tauri/src/remote.rs:181-187 | a refresh that fails still moves the cursor on within the cache |
| CatchUp.EndReachableIff | crates/remote/src/client.rs:297-311 | a window can bring itself to the end of a quiet log if and only if all pages fit from the end of the cache, or from the last place before it that whole pages lead to |
| CatchUp.FirstPageBlocks | crates/remote/src/client.rs:297-311 | while the first page does not fit no window ever shows anything, however the log grows |
| LargeOutput.NothingShown | crates/remote/src/client.rs:305-308 | a reachable log of reader pieces, none of them too long, of which no window ever shows an event |
| Joined.ReplicaOfTheTask | src-tauri/src/remote.rs:149-188 | over every run of both sides the cache of an accepted history is a prefix of the log of its own task on the agent, and each window the last part of that prefix up to its cursor |
| Range.ParsePrinted | crates/remote/src/artifacts.rs:276-282 | a printed number is read back, and refused from two to the power 64 on |
| Range.RangeReadsBack | crates/remote/src/artifacts.rs:270-288 | every printed range is read as the range it denotes, cut to the file, or refused when it denotes none or a number has more than 64 bits |
| Range.RangeWithin | crates/remote/src/artifacts.rs:270-288 | what is served lies inside the file and is not empty when partial |
| Range.ServedExactly | crates/remote/src/artifacts.rs:270-288 | of the range requests of RFC 9110 exactly those for one satisfiable int-range, with the unit in lower case and a last position below two to the power 64, are served, and with what they denote |
| Range.SuffixExample | crates/remote/src/artifacts.rs:276-277 | the last byte of a file is refused |
| Range.ListExample | crates/remote/src/artifacts.rs:278-284 | a list of two ranges is refused |
| Range.LargeExample | crates/remote/src/artifacts.rs:281-283 | a range up to a position of more than 64 bits is refused |
| Range.CapitalsExample | crates/remote/src/artifacts.rs:274-275 | a range with the unit in capitals is refused |
| Results.CheckArtifacts | crates/core/src/remote/storage.rs:495-521 | a list passes if and only if ids are distinct, task, names, sizes and hashes are in order and the limits hold |
| Results.CacheableInAnyOrder | crates/remote/src/artifacts.rs:251-262 | a list passes in any order |
| Results.ComponentsJoin | crates/core/src/remote/model.rs:204-219 | splitting a path at slashes gives parts without slashes that make up the path |
| Trees.ValidIffJoined | crates/core/src/remote/model.rs:204-219 | the valid names are the joins of names that are not empty, not the two dots, and without separators, colons and zero, up to 4096 bytes |
| Trees.ByteLengthIsEncoded | crates/core/src/remote/model.rs:204-206 | the length that is limited is that of the encoded name |
| Snapshot.Walk.Copy | crates/remote/src/artifacts.rs:126-157 | a stored copy is the file, or the copy stops at the size limit |
| Snapshot.Walk.AddFile | crates/remote/src/artifacts.rs:111-156 | a copied file is recorded with its name, size and hash, and registered before the copy starts |
| Snapshot.Walk.VisitFile | crates/remote/src/artifacts.rs:104-156 | a regular file is copied within the limits or refused for one of them |
| Snapshot.Walk.Visit | crates/remote/src/artifacts.rs:88-157 | an entry is counted, put on the stack or copied, or refused for the first reason there is |
| Snapshot.Walk.ReadDirectory | crates/remote/src/artifacts.rs:87-158 | the entries of a directory move from what is left to what is done |
| Snapshot.Walk.ReadAll | crates/remote/src/artifacts.rs:78-160 | the walk ends and has then handled the whole tree |
| Snapshot.Walk.Run | crates/remote/src/artifacts.rs:73-167 | all regular files are listed once with their contents if and only if the tree is within the limits, otherwise the storage is as before |
| Snapshot.Walk.Collect | crates/remote/src/artifacts.rs:53-168 | the same for the result directory found below the working directory |
| Snapshot.Walk.Discard | crates/remote/src/artifacts.rs:161-165 | registered files are removed and nothing else |
| Snapshot.RefusedIff | crates/remote/src/artifacts.rs:88-151 | an entry is refused if and only if with it the tree breaks a limit or holds something that may not be copied |
| Snapshot.EntryMoves | crates/remote/src/artifacts.rs:87-100 | handling an entry changes nothing in the sum of done, left and stacked |
| Snapshot.SnapshotIsCacheable | crates/core/src/remote/storage.rs:495-521 | the controller accepts the list of every successful snapshot in whatever order it is sent, and its records match the stored files |
| Trees.SlashedAt | crates/remote/src/artifacts.rs:116 | character by character a backslash becomes a slash |
| Trees.ListedIffThere | crates/remote/src/artifacts.rs:112-117 | the list of a tree holds exactly its regular files, under the names that lead to them joined by slashes |
| Trees.FileIsListed | crates/remote/src/artifacts.rs:112-117 | a file in a directory below the root is listed under its whole path |
| Trees.NamesAreDistinct | crates/remote/src/artifacts.rs:112-117 | with different sibling names no two files share a name and none is listed twice |
| Download.RestIsServed | crates/remote/src/service.rs:235-271 | the agent answers the request for the rest with the rest, in the words the client expects |
| Download.Client.Rehash | crates/remote/src/client.rs:109-117 | the retained part is hashed from its beginning |
| Download.Client.Receive | crates/remote/src/client.rs:150-163 | chunks are appended to the file and fed to the hasher, as far as declared size and disk allow |
| Download.Client.Transfer | crates/remote/src/client.rs:118-166 | the rest arrives and is in the hasher, or the transfer fails for the reason the source gives with the retained part only longer |
| Download.Client.PublishFile | crates/remote/src/client.rs:169-179 | a checked file is linked to a free name |
| Download.Client.Fetch | crates/remote/src/client.rs:60-180 | one attempt in full: when it fails, what is retained, what is published |
| Download.PublishesOnlyWhole | crates/remote/src/client.rs:167-179 | against any server: no file is replaced, a published one has the declared size and hash, and the retained part never shrinks |
| Download.HonestAttempt | crates/remote/src/client.rs:104-180 | against an agent holding the file: a prefix is retained, and the attempt succeeds if and only if the rest arrives and nothing interferes |
| Download.ResumedDownload | crates/remote/src/client.rs:104-180 | the same over any number of broken attempts |
| Pairing.AccessStore.Pair | crates/core/src/remote/access.rs:69-125 | the answer to an attempt, the new controller with its name and token, and the counters |
| Pairing.AccessStore.Authenticate | crates/core/src/remote/access.rs:126-138 | a token is admitted if and only if a controller that is not revoked has its hash |
| Pairing.AccessStore.Revoke | crates/core/src/remote/access.rs:139-152 | afterwards a known controller is revoked, since the first time it was, and nothing else has changed |
| Pairing.RowsCount | crates/core/src/remote/access.rs:90-116 | the row of a session counts exactly its successes and its wrong secrets |
| Pairing.OnlyTheNewest | crates/core/src/remote/access.rs:55-65 | the table holds the newest session and no other |
| Pairing.SessionLimits | crates/core/src/remote/access.rs:69-125 | over every run a session makes at most one controller and takes at most five wrong secrets |
| Pairing.PairsIff | crates/core/src/remote/access.rs:69-125 | over every run an attempt succeeds if and only if its session is the newest, unexpired, unused, its secret right and wrong ones fewer than five |
| Pairing.RevokedForGood | crates/core/src/remote/access.rs:139-152 | a revoked controller stays revoked |
| Pairing.AdmittedIff | crates/core/src/remote/access.rs:126-152 | over every run a controller is admitted with a token if and only if some call paired it with that token and no later one revoked it |
| Repair.TransactionsKeepSound | crates/core/src/storage.rs:167-228 | every transaction keeps log and row of a task in agreement, and an ended task never changes |
| Repair.RunEnds | crates/core/src/storage.rs:151-228 | every way through a run leads to an end that agrees with the log |
| Repair.RecoverySettles | crates/core/src/storage.rs:110-125 | recovery ends every task, keeps every end there is, and can be repeated |
| Repair.Store.Submit | crates/core/src/storage.rs:127-149 | a request is saved once and found again, whatever fails |
| Repair.Store.Finish | crates/core/src/storage.rs:216-226 | an end is recorded once, with its event, or not at all |
| Repair.Store.RunInner | crates/core/src/storage.rs:167-214 | the first part of a run leaves the task as it was, running, or ended |
| Repair.Store.Run | crates/core/src/storage.rs:151-165 | with any call failing, the task afterwards has an end that agrees with its log, or there is a warning; only a passed action succeeds |
| Repair.Store.Interrupt | crates/core/src/storage.rs:113-123 | the writes of recovery cover exactly the tasks that had not ended |
| Repair.Store.Reopen | crates/core/src/storage.rs:19-30 | opening ends every task that had not ended, all of them or none |

## Left out

- TLS, certificates, the credential vault, HTTP framing, Tailscale: effects outside the model. A transaction is atomic, a message may be lost, late or repeated.
- SQLite, file locks and migrations: a store is a map; that one process owns a directory is taken from the lock.
- Process groups, Job Objects, forced stops and the five-second grace: a process writes any bytes and exits at any time; a wait that fails is a step that fails the executor.
- `Runner::run`, `Runner::execute` and the commands of the controller are steps with a program counter, not loops: what is proved is about what others do between two of their awaits.
- The bounded channel between reader and executor: pieces arrive in order and may wait; the model does not bound how many.
- SHA-256 and random ids: the content hash is the content without its request id, a file digest is any function of the bytes, new ids are unused.
- Validation of requests, allowed directories and interpreters, and in the step system whether a controller is still authorized: outcomes that a call is given.
- JSON: how a progress report is parsed is an unspecified constant, `Tasks.JSON_PERCENT`; of what is sent only the size of a page of events is modelled, with ids of 36 characters and times of 24.
- Other responses that may exceed 2 MiB, and all other errors of a refresh: a refresh may fail at any step.
- Time: deadlines pass at any step; creation times and clock readings are given. Finishing times and run instances are not kept.
- Error texts of the operating system: any text; that they are short is an assumption of `Theorems.EventTextsFit` alone.
- When a view was recorded: an older answer may be recorded after a newer one, so the view may go back.
- The form's retained request: any request may be submitted at any time, so its retries are among the runs.
- The submission state "rejected", which nothing writes.
- Changes to a result directory during its snapshot, checks of opened handles against path escapes, and failures of the final removal: the tree is fixed and removal succeeds.
- The checks of the download's target path before the partial file is opened, other than that no file has the name.
- Poisoned locks in the repair store, and submissions between the steps of a run: they touch other rows.
- The React interface apart from cursor and window, device preferences, network snapshots, autostart: only easy properties.
