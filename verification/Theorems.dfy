// What the agent promises, over every run.
module Theorems {
  import opened Text
  import Pipe
  import opened Tasks
  import opened Engine
  import opened AgentStore
  import opened System
  import opened Safety

  // A controller's request has at most one task, and its process is started at
  // most once, however often it is submitted, cancelled or interrupted.
  lemma AtMostOnce(s: Sys)
    requires Reachable(s)
    ensures forall i, j | i in s.cells && j in s.cells
              && s.cells[i].task.controller == s.cells[j].task.controller
              && s.cells[i].task.request.id == s.cells[j].task.request.id :: i == j
    ensures forall id | id in s.cells :: s.cells[id].spawned <= 1
  {
    ReachableInv(s);
    forall id | id in s.cells ensures s.cells[id].spawned <= 1 {
      assert CellInv(s.cells[id]);
    }
  }

  // --- The steps are the store's transactions ---------------------------------------

  lemma RowsAfterPut(s: Sys, t: Sys, id: int, c: Cell)
    requires t.cells == s.cells[id := c]
    ensures t.Tasks() == s.Tasks()[id := c.task]
  {
    var rows := s.Tasks()[id := c.task];
    assert forall k :: k in t.Tasks() <==> k in rows;
    assert forall k | k in rows :: t.Tasks()[k] == rows[k];
    assert t.Tasks() == rows;
  }

  // Recovery in steps, once begun: `todo` is what is left of the list.
  ghost predicate RecoveryOf(s: Sys, rows: map<int, Task>, todo: seq<int>) {
    && s.phase == Recovering(todo) && s.cells.Keys == rows.Keys
    && (forall id | id in rows && rows[id].state.Active() :: id in todo || s.cells[id].task == Interrupted(rows[id]))
    && (forall id | id in rows :: s.cells[id].task == rows[id] || s.cells[id].task == Interrupted(rows[id]))
  }

  // Stopped nowhere, the steps of recovery end in the rows of the store's Recover.
  lemma {:induction false} RecoveryInSteps(s: Sys, rows: map<int, Task>, actions: seq<Action>)
    requires s.phase.Recovering? && RecoveryOf(s, rows, s.phase.todo)
    requires Run(s, actions).Some? && Run(s, actions).value.phase.Up?
    requires forall a | a in actions :: a == ByProcess(RecoversOne) || a == ByProcess(RecoversRest)
    requires forall k | 0 <= k < |actions| - 1 :: actions[k] == ByProcess(RecoversOne)
    ensures Run(s, actions).value.Tasks() == RecoveredAll(rows)
    decreases |actions|
  {
    var t := Next(s, actions[0]).value;
    assert actions[0] in actions && forall a | a in actions[1..] :: a in actions;
    if actions[0] == ByProcess(RecoversOne) {
      OneRecovered(s, rows);
      RecoveryInSteps(t, rows, actions[1..]);
    } else {
      AllRecovered(s, rows);
      assert actions[1..] == [];
    }
  }

  lemma RecoveryBegins(s: Sys, ids: seq<int>)
    requires ProcessStep(s, Opens(ids)).Some?
    ensures RecoveryOf(ProcessStep(s, Opens(ids)).value, s.Tasks(), ids)
  {
    var t := ProcessStep(s, Opens(ids)).value;
    assert t.cells.Keys == s.Tasks().Keys;
  }

  lemma CrashLeavesRows(s: Sys)
    ensures Next(s, ByProcess(Crashes)).value.Tasks() == s.Tasks()
  {
    var left, rows := Next(s, ByProcess(Crashes)).value.Tasks(), s.Tasks();
    forall id: int | id in rows
      ensures id in left && left[id] == rows[id]
    {
    }
    SameMap(left, rows);
  }

  // Broken off by a crash anywhere, recovery still leads to the same rows.
  lemma BrokenRecovery(s: Sys, rows: map<int, Task>, todo: seq<int>)
    requires RecoveryOf(s, rows, todo)
    ensures RecoveredAll(Next(s, ByProcess(Crashes)).value.Tasks()) == RecoveredAll(rows)
  {
    hide Interrupted, RecoveredAll, Next;
    CrashLeavesRows(s);
    var done := set id | id in rows && s.cells[id].task == Interrupted(rows[id]);
    var partly := PartlyRecovered(rows, done);
    var rowsNow := s.Tasks();
    forall id: int | id in rowsNow
      ensures id in partly && rowsNow[id] == partly[id]
    {
    }
    SameMap(rowsNow, partly);
    RecoveryRestarts(rows, done);
  }

  lemma InterruptOnce(c: Cell)
    requires Enabled(c, Interrupt)
    ensures Do(c, Interrupt).task == Interrupted(c.task)
  {
  }

  lemma InterruptedTwice(t: Task)
    ensures Interrupted(Interrupted(t)) == Interrupted(t)
  {
  }

  lemma OneRecovered(s: Sys, rows: map<int, Task>)
    requires s.phase.Recovering? && RecoveryOf(s, rows, s.phase.todo) && ProcessStep(s, RecoversOne).Some?
    ensures var t := ProcessStep(s, RecoversOne).value; t.phase.Recovering? && RecoveryOf(t, rows, t.phase.todo)
  {
    hide Interrupted, Do, Enabled;
    var id := s.phase.todo[0];
    InterruptOnce(s.cells[id]);
    InterruptedTwice(rows[id]);
    OneFewer(s, ProcessStep(s, RecoversOne).value, rows, id);
  }

  lemma OneFewer(s: Sys, t: Sys, rows: map<int, Task>, id: int)
    requires s.phase.Recovering? && s.phase.todo != [] && s.phase.todo[0] == id && id in rows
    requires RecoveryOf(s, rows, s.phase.todo) && t.phase == Recovering(s.phase.todo[1..]) && t.cells.Keys == s.cells.Keys
    requires forall i | i in s.cells && i != id :: t.cells[i] == s.cells[i]
    requires t.cells[id].task == Interrupted(rows[id])
    ensures RecoveryOf(t, rows, t.phase.todo)
  {
    hide Interrupted;
    assert forall i | i in s.phase.todo :: i == id || i in s.phase.todo[1..];
  }

  lemma ResolveIs(c: Cell, before: Task)
    requires Enabled(c, Resolve) && (c.task == Interrupted(before) || (c.task == before && !before.state.Active()))
    ensures Do(c, Resolve).task == Recovered(before)
  {
  }

  lemma AllRecovered(s: Sys, rows: map<int, Task>)
    requires RecoveryOf(s, rows, []) && ProcessStep(s, RecoversRest).Some?
    ensures ProcessStep(s, RecoversRest).value.Tasks() == RecoveredAll(rows)
  {
    hide Interrupted, Do, Recovered, Enabled;
    var t := ProcessStep(s, RecoversRest).value;
    forall id | id in rows
      ensures t.cells[id].task == Recovered(rows[id])
    {
      ResolveIs(s.cells[id], rows[id]);
    }
    SameMap(t.Tasks(), RecoveredAll(rows));
  }

  // --- Rows and logs -----------------------------------------------------------------

  // Rows and logs agree in every reachable state.
  lemma RowsAreReplays(s: Sys, id: int)
    requires Reachable(s) && id in s.cells
    ensures var t := s.cells[id].task;
            && (forall i | 0 <= i < |t.log| :: t.log[i].number == i + 1)
            && ColumnsOf(t) == Replay(t.WantsResults(), t.log)
            && StateEvents(t.log) + t.state.Rank() <= 5
  {
    hide Reachable;
    ReachableCell(s, id);
  }

  // The order of the events of every task.
  lemma LogsFollowTheGrammar(s: Sys, id: int)
    requires Reachable(s) && id in s.cells
    ensures var t := s.cells[id].task;
            && StageOf(t.WantsResults(), t.log) != Wrong
            && t.log != [] && (exists note :: t.log[0] == Event(1, Moved(Queued, note)))
            && (forall i | 0 <= i < |t.log| && (t.log[i].body.Printed? || t.log[i].body.OutputTruncated?) ::
                  StageOf(t.WantsResults(), t.log[..i]) in {InRun, InCancel})
            && (forall i | 0 <= i < |t.log| && t.log[i].body.Moved? && t.log[i].body.to.Terminal() ::
                  && t.state == t.log[i].body.to
                  && |t.log| <= i + 2
                  && (|t.log| == i + 2 ==> t.log[i+1].body.Results? && t.state != RecoveryRequired))
  {
    hide Reachable, Sound, StageOf;
    ReachableCell(s, id);
    LogGrammar(s.cells[id].task);
  }

  // The output a task retains, against what its process wrote.
  lemma OutputIsKept(s: Sys, id: int)
    requires Reachable(s) && id in s.cells
    ensures var c := s.cells[id]; var t := c.task;
            && t.bytes == Total(Retained(t.log, Stdout)) + Total(Retained(t.log, Stderr)) <= MAX_OUTPUT_BYTES
            && Truncations(t.log) == (if t.truncated then 1 else 0)
            && (t.state.Terminal() && t.state != RecoveryRequired ==>
                  && Subsequence(Retained(t.log, Stdout), Pipe.Pieces(c.out.bytes, true))
                  && Subsequence(Retained(t.log, Stderr), Pipe.Pieces(c.err.bytes, true))
                  && (!t.truncated ==>
                        && Retained(t.log, Stdout) == Pipe.Pieces(c.out.bytes, true)
                        && Retained(t.log, Stderr) == Pipe.Pieces(c.err.bytes, true)))
  {
    hide Reachable, CellInv;
    ReachableCell(s, id);
    OutputKept(s.cells[id]);
  }

  // Output events hold at most 8195 bytes, far below what the controller accepts of
  // an event; only the text of a note can be too long for it.
  lemma OutputEventsAreShort(s: Sys, id: int, i: nat)
    requires Reachable(s) && id in s.cells && i < |s.cells[id].task.log| && s.cells[id].task.log[i].body.Printed?
    ensures 1 <= ByteLen(s.cells[id].task.log[i].body.text) <= Pipe.LINE_LIMIT + 3
  {
    hide Reachable, CellInv;
    ReachableCell(s, id);
    OutputTextsAreShort(s.cells[id], i);
  }

  // --- The texts of the other events ------------------------------------------------

  const LONGEST_NOTE: nat := 100

  // Every text but the two that quote an error of the system is a short fixed one.
  predicate ShortUnlessError(body: EventBody) {
    match body
    case Moved(to, note) => to == Failed || |note| <= LONGEST_NOTE
    case Results(complete, note) => complete ==> |note| <= LONGEST_NOTE
    case _ => true
  }

  ghost predicate NotesAreShort(t: Task) {
    forall e | e in t.log :: ShortUnlessError(e.body)
  }

  lemma AppendShort(t: Task, u: Task, body: EventBody)
    requires NotesAreShort(t) && ShortUnlessError(body) && u.log == t.log + [Event(MaxSeq(t.log) + 1, body)]
    ensures NotesAreShort(u)
  {
  }

  lemma TransitionShort(t: Task, from: set<RemoteState>, to: RemoteState, exit: Option<int>, note: string)
    requires NotesAreShort(t) && (to == Failed || |note| <= LONGEST_NOTE)
    ensures NotesAreShort(Transition(t, from, to, exit, note))
  {
  }

  lemma StepShort(c: Cell, s: Step)
    requires Enabled(c, s) && NotesAreShort(c.task)
    ensures NotesAreShort(Do(c, s).task)
  {
    hide NotesAreShort;
    var t := c.task;
    match s
    case Claim => AppendShort(t, Claimed(t), Moved(Starting, NOTE_CLAIMED));
    case CancelEarly => TransitionShort(t, {Cancelling}, Cancelled, None, NOTE_CANCELLED_EARLY);
    case RecordLaunchFailure(why) => TransitionShort(t, {Starting, Cancelling}, Failed, None, why);
    case _ => LaterStepShort(c, s);
  }

  lemma LaterStepShort(c: Cell, s: Step)
    requires Enabled(c, s) && NotesAreShort(c.task) && !s.Claim? && !s.CancelEarly? && !s.RecordLaunchFailure?
    ensures NotesAreShort(Do(c, s).task)
  {
    var t := c.task;
    hide NotesAreShort, Transition, Output, Collected;
    match s
    case RecordRunning => TransitionShort(t, {Starting}, Running, None, NOTE_STARTED);
    case RecordTimeout => TransitionShort(t, {Running, Starting}, Cancelling, None, NOTE_TIMED_OUT);
    case Print(stream) => OutputShort(t, stream, FeedOf(c, stream).All()[FeedOf(c, stream).taken]);
    case Finish => TransitionShort(t, {Starting, Running, Cancelling}, c.pc.final, ExitCode(c), NoteOf(c.pc.final));
    case Collect(problem) => CollectedShort(t, problem.None?, CollectNote(problem));
    case CancelQueued => TransitionShort(t, {Queued}, Cancelled, None, NOTE_DEQUEUED);
    case CancelActive => TransitionShort(t, {Starting, Running}, Cancelling, None, NOTE_CANCELLING);
    case Interrupt => TransitionShort(t, {Starting, Running, Cancelling}, RecoveryRequired, None, RECOVERY_NOTE);
    case Resolve => CollectedShort(t, false, NOTE_UNRESOLVED);
    case _ =>
  }

  lemma OutputShort(t: Task, stream: Stream, text: Str)
    requires NotesAreShort(t)
    ensures NotesAreShort(Output(t, stream, text))
  {
    hide ByteLen, MaxSeq;
  }

  lemma CollectedShort(t: Task, complete: bool, note: string)
    requires NotesAreShort(t) && (complete ==> |note| <= LONGEST_NOTE)
    ensures NotesAreShort(Collected(t, complete, note))
  {
    hide MaxSeq;
  }

  lemma AcceptedShort(controller: int, request: Request, at: int)
    ensures NotesAreShort(Accepted(controller, request, at))
  {
  }

  ghost predicate AllShort(s: Sys) {
    forall id | id in s.cells :: NotesAreShort(s.cells[id].task)
  }

  lemma NextShort(s: Sys, a: Action)
    requires Inv(s) && Next(s, a).Some? && AllShort(s)
    ensures AllShort(Next(s, a).value)
  {
    hide Inv, NotesAreShort, Do, Enabled, Next;
    var t := Next(s, a).value;
    forall id | id in t.cells
      ensures NotesAreShort(t.cells[id].task)
    {
      if id in s.cells {
        var step := CellStepOf(s, a, id);
        if step.Some? {
          StepShort(s.cells[id], step.value);
        }
      } else {
        CreatedIs(s, a, id);
        AcceptedShort(s.calls[a.c].controller, s.calls[a.c].request, a.submit.at);
      }
    }
  }

  lemma CreatedIs(s: Sys, a: Action, id: int)
    requires Next(s, a).Some? && id in Next(s, a).value.cells && id !in s.cells
    ensures a.BySubmit? && a.submit.SubmitCreates? && a.c in s.calls && s.calls[a.c].Submit?
    ensures Next(s, a).value.cells[id] == NewCell(Accepted(s.calls[a.c].controller, s.calls[a.c].request, a.submit.at))
  {
    if !(a.BySubmit? && a.submit.SubmitCreates?) {
      OnlySubmissionsCreate(s, a);
    }
  }

  lemma {:induction false} RunShort(s: Sys, actions: seq<Action>)
    requires Inv(s) && Run(s, actions).Some? && AllShort(s)
    ensures AllShort(Run(s, actions).value)
    decreases |actions|
  {
    hide Inv, Next, AllShort;
    if actions != [] {
      NextKeeps(s, actions[0]);
      NextShort(s, actions[0]);
      RunShort(Next(s, actions[0]).value, actions[1..]);
    }
  }

  lemma {:induction false} BytesOfText(s: Str)
    ensures ByteLen(s) <= 4 * |s|
  {
    if s != [] {
      BytesOfText(s[..|s|-1]);
    }
  }

  // If the errors of the system that a launch or a snapshot reports are at most
  // `limit` bytes long, which is at least 8195, so is every text of every log.
  lemma EventTextsFit(s: Sys, id: int, i: nat, limit: nat)
    requires Reachable(s) && id in s.cells && i < |s.cells[id].task.log| && limit >= Pipe.LINE_LIMIT + 3
    requires var body := s.cells[id].task.log[i].body;
             (body.Moved? && body.to == Failed) || (body.Results? && !body.complete) ==> ByteLen(TextOf(body)) <= limit
    ensures ByteLen(TextOf(s.cells[id].task.log[i].body)) <= limit
  {
    var e := s.cells[id].task.log[i];
    if e.body.Printed? {
      OutputEventsAreShort(s, id, i);
    } else {
      var n: nat, actions :| Run(Start(n), actions) == Some(s);
      StartInv(n);
      hide Inv, Run, Reachable;
      assert AllShort(Start(n));
      RunShort(Start(n), actions);
      assert NotesAreShort(s.cells[id].task) && e in s.cells[id].task.log;
      BytesOfText(TextOf(e.body));
    }
  }

  // When a cancel call has returned and its task is still being cancelled, its
  // executor has not read the task yet, or its token is cancelled, or it has given
  // up. The call only ever touched a task of its own controller.
  lemma NoLostCancellation(s: Sys, c: int)
    requires Reachable(s) && c in s.calls && s.calls[c].Cancel? && s.calls[c].cancelPc.Returned?
    ensures var call := s.calls[c];
            && call.id in s.cells
            && (call.who.Some? ==> s.cells[call.id].task.controller == call.who.value)
            && !s.cells[call.id].task.state.Runnable()
            && (s.cells[call.id].task.state == Cancelling ==>
                  s.cells[call.id].token || s.cells[call.id].pc in {Picked, Begun, EarlyCancel}
                  || s.cells[call.id].pc.Ending? || s.cells[call.id].pc.Ended? || s.cells[call.id].pc.Gone?)
  {
    hide Reachable, CellInv;
    ReachableCall(s, c);
    DeliveredMeans(s.cells[s.calls[c].id]);
  }

  lemma DeliveredMeans(c: Cell)
    requires Delivered(c)
    ensures !c.task.state.Runnable()
    ensures c.task.state == Cancelling ==>
              c.token || c.pc in {Picked, Begun, EarlyCancel} || c.pc.Ending? || c.pc.Ended? || c.pc.Gone?
  {
  }

  // The result of a task that has ended is open if and only if results were wanted and
  // the end was recorded while the task was being cancelled, before a launch had
  // succeeded, or its executor is collecting the results, or failed before it had
  // recorded them. Without an executor, that is when the task ended in the queue or
  // before this process started, the result is never open.
  lemma PendingExactly(s: Sys, id: int)
    requires Reachable(s) && s.phase.Up? && id in s.cells && s.cells[id].task.state.Terminal()
    ensures var c := s.cells[id];
            && (c.task.result == Pending <==> c.task.WantsResults() && (c.early || c.pc.Collecting? || c.torn))
            && (c.torn ==> c.pc == Ending(false) || c.pc == Ended(false) || c.pc == Gone(false))
            && (c.pc.Idle? ==> c.task.result != Pending)
  {
    hide Reachable;
    ReachableIdle(s, id);
    ReachableCell(s, id);
    EndedPc(s.cells[id]);
  }

  lemma EndedPc(c: Cell)
    requires CellInv(c) && c.task.state.Terminal() && (c.pc.Idle? ==> Settled(c.task))
    ensures c.task.result == Pending <==> c.task.WantsResults() && (c.early || c.pc.Collecting? || c.torn)
    ensures c.torn ==> c.pc == Ending(false) || c.pc == Ended(false) || c.pc == Gone(false)
  {
    hide TaskInv, Kept, AllTaken;
    MoveAllowed(c.task);
  }

  lemma ReachableIdle(s: Sys, id: int)
    requires Reachable(s) && s.phase.Up? && id in s.cells
    ensures s.cells[id].pc.Idle? ==> Settled(s.cells[id].task)
  {
    hide CellInv, Settled, KeysInv, CallsInv, LockInv, QueueInv, RunnerInv, StopInv, PhaseInv;
    ReachableInv(s);
  }

  // An executor that has ended without an error has seen its task to an end, and has
  // recorded the results if there were any to collect.
  lemma CleanEnd(s: Sys, id: int)
    requires Reachable(s) && id in s.cells && s.cells[id].pc == Gone(true)
    ensures var c := s.cells[id]; c.task.state.Terminal() && !c.torn
  {
    hide Reachable, TaskInv, Kept, AllTaken;
    ReachableCell(s, id);
  }

  // Once an abort has succeeded, nothing is queued, starting or running, and as the
  // finished call stays on record until the process ends, nothing ever is again.
  lemma AbortLeavesNothingRunnable(s: Sys, c: int)
    requires Reachable(s) && c in s.calls && s.calls[c].Stop? && s.calls[c].abort && s.calls[c].stopPc.StopDone?
    ensures forall id | id in s.cells :: !s.cells[id].task.state.Runnable()
  {
    hide Reachable;
    ReachableCall(s, c);
  }

  // After a stop request has taken the lock and closed the door, no step of the
  // process adds a task.
  lemma StoppedAcceptsNothing(s: Sys, a: Action)
    requires Reachable(s) && s.stop && Next(s, a).Some? && Next(s, a).value.phase.Up?
    ensures Next(s, a).value.cells.Keys == s.cells.Keys
  {
    hide CellsInv, KeysInv, QueueInv, CallsInv, LockInv, RunnerInv, Next, Reachable;
    ReachableInv(s);
    assert Closed(s);
    if a.BySubmit? && a.submit.SubmitCreates? {
      OnlyAdmittedCreate(s, a.c, a.submit);
    } else {
      OnlySubmissionsCreate(s, a);
    }
  }

  lemma OnlyAdmittedCreate(s: Sys, c: int, e: SubmitEvent)
    requires Next(s, BySubmit(c, e)).Some? && e.SubmitCreates?
    ensures c in s.calls && s.calls[c].Admitted()
  {
  }

  lemma OnlySubmissionsCreate(s: Sys, a: Action)
    requires Next(s, a).Some? && !(a.BySubmit? && a.submit.SubmitCreates?)
    ensures Next(s, a).value.cells.Keys == s.cells.Keys
  {
    hide Do, Enabled, ProcessStep, RunnerStep, SubmitStep, CancelStep, StopStep;
    match a
    case ByProcess(p) => ProcessCreatesNothing(s, p);
    case ByRunner(r) => RunnerCreatesNothing(s, r);
    case BySubmit(c, e) => SubmitCreatesNothing(s, c, e);
    case ByCancel(c, fails) => CancelCreatesNothing(s, c, fails);
    case ByStop(c, e) => StopCreatesNothing(s, c, e);
    case _ =>
  }

  lemma ProcessCreatesNothing(s: Sys, p: ProcessEvent)
    requires ProcessStep(s, p).Some?
    ensures ProcessStep(s, p).value.cells.Keys == s.cells.Keys
  {
    hide Do, Enabled;
  }

  lemma RunnerCreatesNothing(s: Sys, r: RunnerEvent)
    requires RunnerStep(s, r).Some?
    ensures RunnerStep(s, r).value.cells.Keys == s.cells.Keys
  {
    hide Do, Enabled;
  }

  lemma SubmitCreatesNothing(s: Sys, c: int, e: SubmitEvent)
    requires c in s.calls && s.calls[c].Submit? && SubmitStep(s, c, e).Some? && !e.SubmitCreates?
    ensures SubmitStep(s, c, e).value.cells.Keys == s.cells.Keys
  {
  }

  lemma CancelCreatesNothing(s: Sys, c: int, fails: bool)
    requires c in s.calls && s.calls[c].Cancel? && CancelStep(s, c, fails).Some?
    ensures CancelStep(s, c, fails).value.cells.Keys == s.cells.Keys
  {
    hide Do;
  }

  lemma StopCreatesNothing(s: Sys, c: int, e: StopEvent)
    requires c in s.calls && s.calls[c].Stop? && StopStep(s, c, e).Some?
    ensures StopStep(s, c, e).value.cells.Keys == s.cells.Keys
  {
    hide Do;
  }

  ghost predicate StopFinished(s: Sys, c: int) {
    s.phase.Up? && c in s.calls && s.calls[c].Stop? && s.calls[c].stopPc.StopDone?
  }

  lemma StopStaysFinished(s: Sys, a: Action, c: int)
    requires StopFinished(s, c) && Next(s, a).Some? && a != ByProcess(Crashes)
    ensures StopFinished(Next(s, a).value, c) && Next(s, a).value.calls[c] == s.calls[c]
  {
    hide Do, Enabled, RunnerStep, SubmitStep, CancelStep, StopStep, NextCancel;
    match a
    case ByProcess(p) =>
    case ByRunner(r) => RunnerLeavesCalls(s, r);
    case BySubmit(k, e) => SubmitLeavesOthers(s, k, e);
    case ByCancel(k, fails) => CancelLeavesOthers(s, k, fails);
    case ByStop(k, e) => StopLeavesOthers(s, k, e);
    case _ =>
  }

  lemma RunnerLeavesCalls(s: Sys, r: RunnerEvent)
    requires RunnerStep(s, r).Some?
    ensures RunnerStep(s, r).value.calls == s.calls && RunnerStep(s, r).value.phase == s.phase
  {
    hide Do, Enabled, IsNext, Waiting;
  }

  // A call changes no other call, and a finished stop takes no further step.
  ghost predicate OthersStay(s: Sys, t: Sys, k: int) {
    t.phase == s.phase && forall c | c in s.calls && c != k :: c in t.calls && t.calls[c] == s.calls[c]
  }

  lemma SubmitLeavesOthers(s: Sys, k: int, e: SubmitEvent)
    requires k in s.calls && s.calls[k].Submit? && SubmitStep(s, k, e).Some?
    ensures OthersStay(s, SubmitStep(s, k, e).value, k)
  {
  }

  lemma CancelLeavesOthers(s: Sys, k: int, fails: bool)
    requires k in s.calls && s.calls[k].Cancel? && CancelStep(s, k, fails).Some?
    ensures OthersStay(s, CancelStep(s, k, fails).value, k)
  {
    hide Do, NextCancel;
  }

  lemma StopLeavesOthers(s: Sys, k: int, e: StopEvent)
    requires k in s.calls && s.calls[k].Stop? && StopStep(s, k, e).Some?
    ensures OthersStay(s, StopStep(s, k, e).value, k) && !s.calls[k].stopPc.StopDone?
  {
    hide Do, NextCancel;
  }

  // Once a stop request has returned, and until the process ends, no task is
  // accepted, and after an abort none is ever runnable again.
  lemma {:induction false} AfterStop(s: Sys, actions: seq<Action>, c: int)
    requires Reachable(s) && StopFinished(s, c)
    requires Run(s, actions).Some? && forall a | a in actions :: a != ByProcess(Crashes)
    ensures var t := Run(s, actions).value;
            && StopFinished(t, c) && t.cells.Keys == s.cells.Keys
            && (s.calls[c].abort ==> forall id | id in t.cells :: !t.cells[id].task.state.Runnable())
    decreases |actions|
  {
    hide Reachable, Next, CallInv, Inv;
    if actions == [] {
      if s.calls[c].abort {
        AbortLeavesNothingRunnable(s, c);
      }
    } else {
      var u := Next(s, actions[0]).value;
      assert actions[0] in actions && forall a | a in actions[1..] :: a in actions;
      assert s.stop by {
        ReachableCall(s, c);
        FinishedSignals(s, c);
      }
      StopStaysFinished(s, actions[0], c);
      StoppedAcceptsNothing(s, actions[0]);
      ReachNext(s, actions[0]);
      AfterStop(u, actions[1..], c);
    }
  }

  lemma FinishedSignals(s: Sys, c: int)
    requires StopFinished(s, c) && CallInv(s, s.calls[c])
    ensures s.stop
  {
  }

  // How many places are taken, and how many tasks wait.
  lemma Capacity(s: Sys)
    requires Reachable(s) && s.phase.Up?
    ensures |set id | id in s.cells && s.cells[id].task.state.Active()| <= s.concurrency <= 4
    ensures |Waiting(s.Tasks())| <= MAX_WAITING
  {
    hide CellInv, KeysInv, CallsInv, LockInv, StopInv;
    ReachableInv(s);
    var active := set id | id in s.cells && s.cells[id].task.state.Active();
    forall id | id in active ensures id in Slots(s) {
      ActiveHasPlace(s, id);
    }
    SubsetSize(active, Slots(s));
  }

  lemma NextConcurrency(s: Sys, a: Action)
    requires Next(s, a).Some?
    ensures Next(s, a).value.concurrency == s.concurrency
  {
    hide Do, Enabled, NextCancel, IsNext, Waiting, Knows;
    match a
    case ByProcess(p) =>
    case ByRunner(r) => RunnerConcurrency(s, r);
    case BySubmit(c, e) => SubmitConcurrency(s, c, e);
    case ByStop(c, e) => StopConcurrency(s, c, e);
    case _ =>
  }

  lemma RunnerConcurrency(s: Sys, r: RunnerEvent)
    requires RunnerStep(s, r).Some?
    ensures RunnerStep(s, r).value.concurrency == s.concurrency
  {
    hide Do, Enabled, IsNext, Waiting;
  }

  lemma SubmitConcurrency(s: Sys, c: int, e: SubmitEvent)
    requires c in s.calls && s.calls[c].Submit? && SubmitStep(s, c, e).Some?
    ensures SubmitStep(s, c, e).value.concurrency == s.concurrency
  {
  }

  lemma StopConcurrency(s: Sys, c: int, e: StopEvent)
    requires c in s.calls && s.calls[c].Stop? && StopStep(s, c, e).Some?
    ensures StopStep(s, c, e).value.concurrency == s.concurrency
  {
    hide Do, NextCancel;
  }

  // The number of places is the one configured, if that is from 1 to 4.
  lemma {:induction false} PlacesAreConfigured(n: nat, s: Sys, actions: seq<Action>)
    requires s.concurrency == Clamp(n) && Run(s, actions).Some?
    ensures Run(s, actions).value.concurrency == if n == 0 then 1 else if n <= 4 then n else 4
    decreases |actions|
  {
    hide Next;
    if actions != [] {
      NextConcurrency(s, actions[0]);
      PlacesAreConfigured(n, Next(s, actions[0]).value, actions[1..]);
    }
  }

  lemma ActiveHasPlace(s: Sys, id: int)
    requires Inv(s) && s.phase.Up? && id in s.cells && s.cells[id].task.state.Active()
    ensures id in Slots(s)
  {
    hide TaskInv, Kept, AllTaken, KeysInv, CallsInv, LockInv, StopInv;
    assert CellInv(s.cells[id]);
    match s.cells[id].pc
    case Picked => assert s.runner == Registering(id);
    case Gone(_) => assert s.cells[id].pc == Gone(false);
    case _ =>
  }

  // A repeat of an accepted request is answered with its task, even when the queue
  // is full: it can be answered in no other way unless the controller has been
  // revoked or the store fails.
  lemma RepeatsAreAnswered(s: Sys, c: int, id: int, e: SubmitEvent)
    requires Reachable(s) && s.phase.Up? && c in s.calls && s.calls[c].Admitted()
    requires id in s.cells && HasKey(s.cells[id].task, s.calls[c].controller, s.calls[c].request.id)
    requires s.cells[id].task.request == s.calls[c].request
    ensures Next(s, BySubmit(c, SubmitFinds(id))).Some?
    ensures Next(s, BySubmit(c, e)).Some? && !e.SubmitUnauthorized? && !e.SubmitFails? ==>
              && e == SubmitFinds(id)
              && var t := Next(s, BySubmit(c, e)).value; t.cells == s.cells && t.calls[c].submitPc == SubmitOk(id)
  {
    hide CellsInv, PhaseInv, RunnerInv, LockInv, CallsInv, QueueInv, StopInv, Reachable;
    ReachableInv(s);
    assert HasKey(s.Tasks()[id], s.calls[c].controller, s.calls[c].request.id);
    assert Knows(s.Tasks(), s.calls[c].controller, s.calls[c].request.id);
  }

  // --- Faults -------------------------------------------------------------------------

  ghost predicate FaultInv(s: Sys) {
    s.phase.Up? && (s.fault || s.runner.Faulting?) ==> !s.accepting
  }

  // The flags of a fault, and the door, in one step.
  ghost predicate FlagsMoved(s: Sys, t: Sys) {
    || !t.phase.Up?
    || (!s.phase.Up? && t.runner.Looking? && !t.fault)
    || (&& s.phase.Up? && (t.accepting ==> s.accepting) && (s.fault ==> t.fault)
        && (t.fault || t.runner.Faulting? ==> s.fault || s.runner.Faulting? || !t.accepting))
  }

  lemma FlagsMove(s: Sys, a: Action)
    requires Next(s, a).Some?
    ensures FlagsMoved(s, Next(s, a).value)
  {
    hide Do, Enabled, ProcessStep, RunnerStep, SubmitStep, CancelStep, StopStep, FlagsMoved;
    match a
    case ByProcess(p) => ProcessFlags(s, p);
    case ByRunner(r) => RunnerFlags(s, r);
    case BySubmit(c, e) => SubmitFlags(s, c, e);
    case ByCancel(c, fails) => CancelFlags(s, c, fails);
    case ByStop(c, e) => StopFlags(s, c, e);
    case _ => OtherFlags(s, a);
  }

  lemma ProcessFlags(s: Sys, p: ProcessEvent)
    requires ProcessStep(s, p).Some?
    ensures FlagsMoved(s, ProcessStep(s, p).value)
  {
    hide Do, Enabled;
  }

  lemma RunnerFlags(s: Sys, r: RunnerEvent)
    requires s.phase.Up? && RunnerStep(s, r).Some?
    ensures FlagsMoved(s, RunnerStep(s, r).value)
  {
    hide Do, Enabled, IsNext, Waiting;
  }

  lemma SubmitFlags(s: Sys, c: int, e: SubmitEvent)
    requires s.phase.Up? && c in s.calls && s.calls[c].Submit? && SubmitStep(s, c, e).Some?
    ensures FlagsMoved(s, SubmitStep(s, c, e).value)
  {
  }

  lemma CancelFlags(s: Sys, c: int, fails: bool)
    requires s.phase.Up? && c in s.calls && s.calls[c].Cancel? && CancelStep(s, c, fails).Some?
    ensures FlagsMoved(s, CancelStep(s, c, fails).value)
  {
    hide Do, NextCancel;
  }

  lemma StopFlags(s: Sys, c: int, e: StopEvent)
    requires s.phase.Up? && c in s.calls && s.calls[c].Stop? && StopStep(s, c, e).Some?
    ensures FlagsMoved(s, StopStep(s, c, e).value)
  {
    hide Do, NextCancel;
  }

  lemma OtherFlags(s: Sys, a: Action)
    requires Next(s, a).Some? && (a.ByExecutor? || a.Arrives?)
    ensures FlagsMoved(s, Next(s, a).value)
  {
    hide Do, Enabled;
  }

  lemma {:induction false} RunFault(s: Sys, actions: seq<Action>)
    requires Run(s, actions).Some? && FaultInv(s)
    ensures FaultInv(Run(s, actions).value)
    decreases |actions|
  {
    hide Next;
    if actions != [] {
      FlagsMove(s, actions[0]);
      RunFault(Next(s, actions[0]).value, actions[1..]);
    }
  }

  // When an executor has failed, the door is shut for the rest of the process: every
  // submission that has not passed its check is refused, and no task is claimed.
  lemma FaultShutsTheDoor(s: Sys, a: Action)
    requires Reachable(s) && s.phase.Up? && s.fault && Next(s, a).Some?
    ensures !s.accepting
    ensures a.BySubmit? && a.submit.SubmitChecks? ==> Next(s, a).value.calls[a.c].submitPc == SubmitRefused
    ensures !(a.ByRunner? && a.r.Claims?)
    ensures Next(s, a).value.phase.Up? ==> Next(s, a).value.fault
  {
    FlagsMove(s, a);
    var n: nat, actions :| Run(Start(n), actions) == Some(s);
    RunFault(Start(n), actions);
    ReachablePlaces(s);
    hide Reachable, Run, Do, Enabled, IsNext, Waiting, Knows;
  }

  lemma ReachablePlaces(s: Sys)
    requires Reachable(s)
    ensures PlacesInv(s)
  {
    hide CellsInv, KeysInv, CallsInv, LockInv, QueueInv, StopInv, PhaseInv, ExecutorsInv, PlacesInv;
    ReachableInv(s);
  }

  // --- Drain ------------------------------------------------------------------------

  // When the runner has returned without a fault, nothing is active: whatever has
  // not ended is still in the queue. If the stop came before the last empty claim,
  // everything has ended.
  lemma Drained(s: Sys)
    requires Reachable(s) && s.phase.Up? && s.runner.Done? && !s.fault
    ensures forall id | id in s.cells :: s.cells[id].task.state.Terminal() || s.cells[id].task.state == Queued
    ensures s.emptyAfterStop ==> forall id | id in s.cells :: s.cells[id].task.state.Terminal()
  {
    hide CellInv, KeysInv, CallsInv, LockInv;
    ReachableInv(s);
    assert Slots(s) == {};
    forall id | id in s.cells
      ensures s.cells[id].task.state.Terminal() || s.cells[id].task.state == Queued
      ensures s.emptyAfterStop ==> s.cells[id].task.state != Queued
    {
      if s.cells[id].task.state.Active() {
        ActiveHasPlace(s, id);
      }
      if s.cells[id].task.state == Queued {
        assert s.Tasks()[id].state == Queued;
        assert id in Waiting(s.Tasks());
      }
    }
  }

  // After an empty claim only tasks created since then can be waiting, and these wait
  // until they are cancelled.
  ghost predicate LateInv(s: Sys) {
    && (s.late.Some? ==>
          && (forall id | id in s.cells && s.cells[id].task.state == Queued :: id in s.late.value)
          && (forall id | id in s.late.value :: id in s.cells && InQueueOrCancelled(s.cells[id].task.state)))
    && (Waits(s) ==> s.late.Some?)
  }

  // The runner is about to wait, or waits, although a place is free.
  predicate Waits(s: Sys) {
    (s.runner.Checking? || s.runner.Selecting?) && |s.joined| < s.concurrency && !s.fault
  }

  predicate InQueueOrCancelled(state: RemoteState) {
    state == Queued || state == Cancelled
  }

  // What becomes of the set in a step.
  ghost predicate LateMoved(s: Sys, t: Sys, a: Action) {
    && (t.late == s.late || t.late == None
        || (a == ByRunner(ClaimsNothing) && t.late == Some({}) && t.cells == s.cells && Waiting(s.Tasks()) == {})
        || (a.BySubmit? && a.submit.SubmitCreates? && s.late.Some? && t.late == Some(s.late.value + {a.submit.id})))
    && (a.BySubmit? && a.submit.SubmitCreates? && s.late.Some? ==> t.late == Some(s.late.value + {a.submit.id}))
    && (a.ByRunner? && a.r.Claims? ==> t.late.None?)
    && (Waits(t) ==> t.late.Some?)
  }

  lemma LateMoves(s: Sys, a: Action)
    requires Inv(s) && Next(s, a).Some? && LateInv(s)
    ensures LateMoved(s, Next(s, a).value, a)
  {
    SomeConcurrency(s);
    hide Inv, Do, Enabled, Waiting, LateInv, RunnerStep, StopStep, CancelStep, SubmitStep, ProcessStep, ExecutorStepOf;
    match a
    case ByRunner(r) => LateRunnerMoves(s, r);
    case BySubmit(c, e) => LateSubmitMoves(s, c, e);
    case ByProcess(p) => LateProcessMoves(s, p);
    case _ =>
      LateOtherMoves(s, a);
      Unmoved(s, Next(s, a).value, a);
  }

  lemma LateOtherMoves(s: Sys, a: Action)
    requires Next(s, a).Some? && !a.ByRunner? && !a.BySubmit? && !a.ByProcess?
    ensures LeavesRunner(s, Next(s, a).value)
  {
    hide LeavesRunner, StopStep, CancelStep, ExecutorStepOf;
    match a
    case ByStop(c, e) => LateStopMoves(s, c, e);
    case ByCancel(c, fails) => LateCancelMoves(s, c, fails);
    case ByExecutor(id, step) => LateExecutorMoves(s, id, step);
    case Arrives(c, call) => LateArrives(s, c, call);
    case _ =>
  }

  lemma LateArrives(s: Sys, c: int, call: Call)
    ensures LeavesRunner(s, Set(s, c, call))
  {
  }

  lemma Unmoved(s: Sys, t: Sys, a: Action)
    requires LeavesRunner(s, t) && LateInv(s) && !a.ByRunner? && !a.BySubmit?
    ensures LateMoved(s, t, a)
  {
  }

  lemma SomeConcurrency(s: Sys)
    requires Inv(s)
    ensures s.concurrency >= 1
  {
    hide CellsInv, KeysInv, CallsInv, LockInv, QueueInv, StopInv, PhaseInv, ExecutorsInv;
  }

  lemma LateSubmitMoves(s: Sys, c: int, e: SubmitEvent)
    requires c in s.calls && s.calls[c].Submit? && SubmitStep(s, c, e).Some?
    ensures var t := SubmitStep(s, c, e).value;
            && t.late == (if e.SubmitCreates? && s.late.Some? then Some(s.late.value + {e.id}) else s.late)
            && t.runner == s.runner && t.joined == s.joined && t.fault == s.fault && t.concurrency == s.concurrency
  {
    if e.SubmitCreates? {
      LateCreateMoves(s, c, e.id, e.at);
    } else {
      LateAnswerMoves(s, c, e);
    }
    hide *;
  }

  lemma LateCreateMoves(s: Sys, c: int, id: int, at: int)
    requires c in s.calls && s.calls[c].Submit? && SubmitStep(s, c, SubmitCreates(id, at)).Some?
    ensures var t := SubmitStep(s, c, SubmitCreates(id, at)).value;
            && t.late == (if s.late.Some? then Some(s.late.value + {id}) else s.late)
            && t.runner == s.runner && t.joined == s.joined && t.fault == s.fault && t.concurrency == s.concurrency
  {
    hide Waiting, Knows, Accepted, NewCell;
  }

  lemma LateAnswerMoves(s: Sys, c: int, e: SubmitEvent)
    requires c in s.calls && s.calls[c].Submit? && SubmitStep(s, c, e).Some? && !e.SubmitCreates?
    ensures LeavesRunner(s, SubmitStep(s, c, e).value)
  {
    var t := SubmitStep(s, c, e).value;
    hide Waiting, Knows, HasKey, ContentHash, LeavesRunner;
    assert t == s.(calls := t.calls, lock := t.lock);
    OnlyCalls(s, t);
  }

  lemma OnlyCalls(s: Sys, t: Sys)
    requires t == s.(calls := t.calls, lock := t.lock)
    ensures LeavesRunner(s, t)
  {
  }

  lemma LateProcessMoves(s: Sys, p: ProcessEvent)
    requires ProcessStep(s, p).Some?
    ensures var t := ProcessStep(s, p).value;
            (t.late == None && !t.runner.Checking? && !t.runner.Selecting?)
            || LeavesRunner(s, t)
  {
    hide Do, Enabled;
  }

  lemma LateExecutorMoves(s: Sys, id: int, step: Step)
    requires ExecutorStepOf(s, id, step).Some?
    ensures LeavesRunner(s, ExecutorStepOf(s, id, step).value)
  {
    hide Do, Enabled;
  }

  lemma LateRunnerMoves(s: Sys, r: RunnerEvent)
    requires RunnerStep(s, r).Some? && LateInv(s) && s.concurrency >= 1
    ensures var t := RunnerStep(s, r).value;
            && (t.late == s.late || t.late == None
                || (r == ClaimsNothing && t.late == Some({}) && t.cells == s.cells && Waiting(s.Tasks()) == {}))
            && (r.Claims? ==> t.late.None?)
            && (Waits(t) ==> t.late.Some?)
  {
    hide Do, Enabled, Waiting, IsNext;
  }

  ghost predicate LeavesRunner(s: Sys, t: Sys) {
    t.late == s.late && t.runner == s.runner && t.joined == s.joined && t.fault == s.fault && t.concurrency == s.concurrency
  }

  lemma LateStopMoves(s: Sys, c: int, e: StopEvent)
    requires c in s.calls && s.calls[c].Stop? && StopStep(s, c, e).Some?
    ensures LeavesRunner(s, StopStep(s, c, e).value)
  {
    hide Do, Enabled, NextCancel, Lists;
    if e.StopCancels? {
      LateStopCancels(s, c);
    }
  }

  lemma LateStopCancels(s: Sys, c: int)
    requires c in s.calls && s.calls[c].Stop? && StopStep(s, c, StopCancels).Some?
    ensures LeavesRunner(s, StopStep(s, c, StopCancels).value)
  {
    hide Do, Enabled, NextCancel;
  }

  lemma LateCancelMoves(s: Sys, c: int, fails: bool)
    requires c in s.calls && s.calls[c].Cancel? && CancelStep(s, c, fails).Some?
    ensures LeavesRunner(s, CancelStep(s, c, fails).value)
  {
    hide Do, Enabled, NextCancel, Lists;
  }

  lemma NextLate(s: Sys, a: Action)
    requires Inv(s) && Next(s, a).Some? && LateInv(s)
    ensures LateInv(Next(s, a).value)
  {
    var t := Next(s, a).value;
    LateMoves(s, a);
    hide Inv, Next, LateMoved, LateInv;
    if t.late.Some? {
      LateCovers(s, a);
      LateAreQueued(s, a);
    }
    assert LateInv(t) by { LateAgain(s, t, a); }
  }

  lemma LateAgain(s: Sys, t: Sys, a: Action)
    requires LateMoved(s, t, a)
    requires t.late.Some? ==>
               && (forall id | id in t.cells && t.cells[id].task.state == Queued :: id in t.late.value)
               && (forall id | id in t.late.value :: id in t.cells && InQueueOrCancelled(t.cells[id].task.state))
    ensures LateInv(t)
  {
  }

  // Every waiting task is in the set.
  lemma LateCovers(s: Sys, a: Action)
    requires Inv(s) && Next(s, a).Some? && LateInv(s) && LateMoved(s, Next(s, a).value, a) && Next(s, a).value.late.Some?
    ensures var t := Next(s, a).value;
            forall id | id in t.cells && t.cells[id].task.state == Queued :: id in t.late.value
  {
    var t := Next(s, a).value;
    NextForward(s, a);
    hide Inv, Next, Forward;
    forall id | id in t.cells && t.cells[id].task.state == Queued
      ensures id in t.late.value
    {
      if id !in s.cells {
        CreatedIs(s, a, id);
        CreatedId(s, a, id);
      } else {
        ForwardMeans(s.cells[id].task, t.cells[id].task);
        assert s.cells[id].task.state == Queued ==> id in Waiting(s.Tasks()) by {
          assert s.Tasks()[id] == s.cells[id].task;
        }
      }
    }
  }

  // Every task of the set waits, or has been taken out of the queue.
  lemma LateAreQueued(s: Sys, a: Action)
    requires Inv(s) && Next(s, a).Some? && LateInv(s) && LateMoved(s, Next(s, a).value, a) && Next(s, a).value.late.Some?
    ensures var t := Next(s, a).value;
            forall id | id in t.late.value :: id in t.cells && InQueueOrCancelled(t.cells[id].task.state)
  {
    var t := Next(s, a).value;
    hide Inv, Next, Do, Enabled;
    forall id | id in t.late.value
      ensures id in t.cells && InQueueOrCancelled(t.cells[id].task.state)
    {
      if id in s.cells {
        if s.late.Some? && id in s.late.value {
          var step := CellStepOf(s, a, id);
          CellOfInv(s, id);
          if step.Some? {
            LeavesQueue(s.cells[id], step.value);
          }
        } else {
          assert a.BySubmit? && a.submit.SubmitCreates? && a.submit.id == id;
          CreatesNew(s, a);
        }
      } else {
        assert a.BySubmit? && a.submit.SubmitCreates? && a.submit.id == id;
        CreatesNew(s, a);
      }
    }
  }

  lemma CellOfInv(s: Sys, id: int)
    requires Inv(s) && id in s.cells
    ensures CellInv(s.cells[id])
  {
    hide CellInv, KeysInv, CallsInv, LockInv, QueueInv, RunnerInv, StopInv, PhaseInv;
  }

  lemma CreatesNew(s: Sys, a: Action)
    requires Next(s, a).Some? && a.BySubmit? && a.submit.SubmitCreates?
    ensures var t := Next(s, a).value;
            && a.submit.id !in s.cells && a.submit.id in t.cells && t.cells[a.submit.id].task.state == Queued
  {
    hide Waiting, Knows;
    AcceptedIs(s.calls[a.c].controller, s.calls[a.c].request, a.submit.at);
  }

  // A task leaves the queue to be started or cancelled.
  lemma LeavesQueue(c: Cell, step: Step)
    requires CellInv(c) && Enabled(c, step) && InQueueOrCancelled(c.task.state) && !step.Claim?
    ensures InQueueOrCancelled(Do(c, step).task.state)
  {
    if c.task.state == Cancelled {
      StepForward(c, step);
      ForwardMeans(c.task, Do(c, step).task);
      hide CellInv, Do, Enabled;
    } else {
      assert c.pc.Idle?;
      hide CellInv, MaxSeq;
    }
  }

  lemma CreatedId(s: Sys, a: Action, id: int)
    requires Next(s, a).Some? && id in Next(s, a).value.cells && id !in s.cells
    requires a.BySubmit? && a.submit.SubmitCreates?
    ensures a.submit.id == id && (s.late.None? ==> Next(s, a).value.late.None?)
  {
  }

  lemma {:induction false} RunLate(s: Sys, actions: seq<Action>)
    requires Inv(s) && Run(s, actions).Some? && LateInv(s)
    ensures LateInv(Run(s, actions).value)
    decreases |actions|
  {
    hide Inv, Next, LateInv;
    if actions != [] {
      NextKeeps(s, actions[0]);
      NextLate(s, actions[0]);
      RunLate(Next(s, actions[0]).value, actions[1..]);
    }
  }

  // The runner waits with a free place only if nothing was to be claimed: whatever is in
  // the queue then was created since the last claim, which found nothing.
  lemma NoPlaceIdle(s: Sys)
    requires Reachable(s) && s.phase.Up? && (s.runner.Checking? || s.runner.Selecting?)
    requires |s.joined| < s.concurrency && !s.fault
    ensures s.late.Some? && forall id | id in s.cells && s.cells[id].task.state == Queued :: id in s.late.value
  {
    hide Reachable;
    ReachableLate(s);
  }

  // What a drain leaves behind: exactly the tasks created since the last claim, which
  // found nothing, that have not been cancelled in the queue. The drain is complete if
  // and only if there are none.
  lemma DrainExactly(s: Sys)
    requires Reachable(s) && s.phase.Up? && s.runner.Checking? && s.joined == {} && s.stop && !s.fault
    ensures s.late.Some?
    ensures var t := Next(s, ByRunner(Checks)).value;
            && t.runner.Done?
            && (forall id | id in s.late.value :: id in t.cells && InQueueOrCancelled(t.cells[id].task.state))
            && (forall id | id in t.cells ::
                  !t.cells[id].task.state.Terminal() <==> id in s.late.value && t.cells[id].task.state != Cancelled)
    ensures s.emptyAfterStop ==> forall id | id in s.late.value && id in s.cells :: s.cells[id].task.state == Cancelled
  {
    hide Reachable;
    ReachablePlaces(s);
    ReachableLate(s);
    ReachNext(s, ByRunner(Checks));
    var t := Next(s, ByRunner(Checks)).value;
    Drained(t);
    ReachableStop(s);
    assert t.cells == s.cells;
    if s.emptyAfterStop {
      forall id | id in s.late.value && id in s.cells
        ensures s.cells[id].task.state != Queued
      {
        assert id !in Waiting(s.Tasks()) && s.Tasks()[id] == s.cells[id].task;
      }
    }
  }

  lemma ReachableLate(s: Sys)
    requires Reachable(s)
    ensures LateInv(s)
  {
    var n: nat, actions :| Run(Start(n), actions) == Some(s);
    StartInv(n);
    hide Inv, Run;
    RunLate(Start(n), actions);
  }

  lemma ReachableStop(s: Sys)
    requires Reachable(s)
    ensures StopInv(s)
  {
    hide CellsInv, KeysInv, QueueInv, CallsInv, LockInv, RunnerInv, PhaseInv;
    ReachableInv(s);
  }

  // --- How much can still happen ----------------------------------------------

  predicate AllIn(s: Sys, ids: seq<int>) {
    forall k | 0 <= k < |ids| :: ids[k] in s.cells
  }

  function RanksOf(s: Sys, ids: seq<int>): nat
    requires AllIn(s, ids)
  {
    if ids == [] then 0 else s.cells[ids[0]].task.state.Rank() + RanksOf(s, ids[1..])
  }

  function StateEventsOf(s: Sys, ids: seq<int>): nat
    requires AllIn(s, ids)
  {
    if ids == [] then 0 else StateEvents(s.cells[ids[0]].task.log) + StateEventsOf(s, ids[1..])
  }

  // Over any run, whatever happens in it, the state changes of any tasks number at
  // most the sum of the ranks these tasks had at its start.
  lemma StateChangesBounded(s: Sys, actions: seq<Action>, ids: seq<int>)
    requires Inv(s) && Run(s, actions).Some? && AllIn(s, ids)
    ensures var t := Run(s, actions).value;
            && AllIn(t, ids)
            && StateEventsOf(t, ids) - StateEventsOf(s, ids) <= RanksOf(s, ids) - RanksOf(t, ids)
  {
    hide Inv, Run;
    RunForward(s, actions);
    BoundAdds(s, Run(s, actions).value, ids);
  }

  lemma {:induction false} BoundAdds(s: Sys, t: Sys, ids: seq<int>)
    requires AllIn(s, ids)
    requires forall id | id in s.cells :: id in t.cells && Forward(s.cells[id].task, t.cells[id].task)
    ensures AllIn(t, ids)
    ensures StateEventsOf(t, ids) + RanksOf(t, ids) <= StateEventsOf(s, ids) + RanksOf(s, ids)
    decreases |ids|
  {
    hide StateEvents;
    if ids != [] {
      var first := ids[0];
      assert first in s.cells;
      assert first in t.cells;
      assert Forward(s.cells[ids[0]].task, t.cells[ids[0]].task);
      BoundAdds(s, t, ids[1..]);
    }
  }

  lemma {:induction false} RunForward(s: Sys, actions: seq<Action>)
    requires Inv(s) && Run(s, actions).Some?
    ensures var t := Run(s, actions).value;
            forall id | id in s.cells :: id in t.cells && Forward(s.cells[id].task, t.cells[id].task)
    decreases |actions|
  {
    hide Inv, Next, Forward;
    if actions == [] {
      forall id | id in s.cells ensures Forward(s.cells[id].task, s.cells[id].task) {
        ForwardRefl(s.cells[id].task);
      }
    } else {
      var u := Next(s, actions[0]).value;
      NextForward(s, actions[0]);
      NextKeeps(s, actions[0]);
      RunForward(u, actions[1..]);
      var t := Run(u, actions[1..]).value;
      forall id | id in s.cells ensures Forward(s.cells[id].task, t.cells[id].task) {
        ForwardTransitive(s.cells[id].task, u.cells[id].task, t.cells[id].task);
      }
    }
  }

  lemma ForwardTransitive(t: Task, u: Task, v: Task)
    requires Forward(t, u) && Forward(u, v)
    ensures Forward(t, v)
  {
    hide StateEvents;
  }

  lemma {:induction false} RunOnce(s: Sys, actions: seq<Action>, a: Action)
    requires Run(s, actions).Some? && Next(Run(s, actions).value, a).Some?
    ensures Run(s, actions + [a]) == Next(Run(s, actions).value, a)
    decreases |actions|
  {
    hide Next;
    if actions == [] {
      assert actions + [a] == [a] && [a][1..] == [];
    } else {
      assert (actions + [a])[1..] == actions[1..] + [a] && (actions + [a])[0] == actions[0];
      RunOnce(Next(s, actions[0]).value, actions[1..], a);
    }
  }

  lemma ReachNext(s: Sys, a: Action)
    requires Reachable(s) && Next(s, a).Some?
    ensures Reachable(Next(s, a).value)
  {
    hide Next, Run;
    var n: nat, actions :| Run(Start(n), actions) == Some(s);
    RunOnce(Start(n), actions, a);
  }

  lemma ExecutorMoves(s: Sys, id: int, step: Step)
    requires Reachable(s) && s.phase.Up? && id in s.joined && id in s.cells && ExecutorStep(step) && Enabled(s.cells[id], step)
    ensures Next(s, ByExecutor(id, step)) == Some(Put(s, id, step)) && Reachable(Put(s, id, step))
  {
    hide Reachable, Do, Enabled;
    ReachNext(s, ByExecutor(id, step));
  }
}
