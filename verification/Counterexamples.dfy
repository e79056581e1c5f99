// Runs of the agent that end where one might not expect it.
module Counterexamples {
  import opened Text
  import opened Tasks
  import opened Engine
  import opened AgentStore
  import opened System
  import opened Theorems
  import Pipe

  // --- A task left behind by a drain ----------------------------------------------

  // Accepted between the last empty claim and the check of the stop signal, a task
  // waits for the next start.
  const STRAGGLER := Request(7, Content(false, "true"))

  // The beginning of a run: started on an empty store, an empty claim, one submission.
  lemma LateSubmission(request: Request) returns (s: Sys)
    ensures Reachable(s)
    ensures s == Start(1).(phase := Up, accepting := true, runner := Checking,
                           cells := map[9 := NewCell(Accepted(5, request, 0))],
                           calls := map[1 := Submit(5, request, SubmitOk(9))], late := Some({9}))
  {
    hide Reachable;
    s := Begin();
    ReachNext(s, ByRunner(Looks));
    s := Next(s, ByRunner(Looks)).value;
    assert Waiting(s.Tasks()) == {};
    ReachNext(s, ByRunner(ClaimsNothing));
    s := Next(s, ByRunner(ClaimsNothing)).value;
    ReachNext(s, Arrives(1, Submit(5, request, SubmitWaiting)));
    s := Next(s, Arrives(1, Submit(5, request, SubmitWaiting))).value;
    ReachNext(s, BySubmit(1, SubmitLocks));
    s := Next(s, BySubmit(1, SubmitLocks)).value;
    ReachNext(s, BySubmit(1, SubmitChecks(true)));
    s := Next(s, BySubmit(1, SubmitChecks(true))).value;
    assert Waiting(s.Tasks()) == {} && !Knows(s.Tasks(), 5, request.id);
    ReachNext(s, BySubmit(1, SubmitCreates(9, 0)));
    s := Next(s, BySubmit(1, SubmitCreates(9, 0))).value;
  }

  lemma Begin() returns (s: Sys)
    ensures Reachable(s) && s == Start(1).(phase := Up, accepting := true, runner := Looking)
  {
    s := Start(1);
    assert Run(s, []) == Some(s);
    ReachNext(s, ByProcess(Opens([])));
    s := Next(s, ByProcess(Opens([]))).value;
    ReachNext(s, ByProcess(RecoversRest));
    s := Next(s, ByProcess(RecoversRest)).value;
  }

  lemma LateStop() returns (s: Sys)
    ensures Reachable(s)
    ensures s == Start(1).(phase := Up, accepting := false, stop := true, runner := Checking,
                           cells := map[9 := NewCell(Accepted(5, STRAGGLER, 0))],
                           calls := map[1 := Submit(5, STRAGGLER, SubmitOk(9)), 2 := Stop(false, StopDone)],
                           late := Some({9}))
  {
    hide Reachable;
    s := LateSubmission(STRAGGLER);
    ReachNext(s, Arrives(2, Stop(false, StopWaiting)));
    s := Next(s, Arrives(2, Stop(false, StopWaiting))).value;
    ReachNext(s, ByStop(2, StopLocks));
    s := Next(s, ByStop(2, StopLocks)).value;
    ReachNext(s, ByStop(2, StopCloses));
    s := Next(s, ByStop(2, StopCloses)).value;
    ReachNext(s, ByStop(2, StopSignals));
    s := Next(s, ByStop(2, StopSignals)).value;
  }

  lemma LateTaskStaysQueued() returns (s: Sys)
    ensures Reachable(s) && s.phase.Up? && s.runner.Done? && !s.fault && s.stop && !s.emptyAfterStop
    ensures 9 in s.cells && s.cells[9].task.state == Queued
  {
    hide Reachable;
    s := LateStop();
    ReachNext(s, ByRunner(Checks));
    s := Next(s, ByRunner(Checks)).value;
  }

  // --- An end with its result pending --------------------------------------------

  const WANTED := Request(8, Content(true, "true"))

  function Fresh(): Cell {
    NewCell(Accepted(5, WANTED, 0))
  }

  function Taken(): Cell {
    Do(Fresh(), Claim)
  }

  function Doomed(): Cell {
    Do(Taken(), CancelActive)
  }

  lemma TakenIs()
    ensures Taken().task.state == Starting && Taken().task.controller == 5 && Taken().task.result == Pending
    ensures Taken().pc == Picked && !Taken().registered && Do(Taken(), CancelQueued) == Taken()
  {
  }

  lemma DoomedIs()
    ensures Doomed().task.state == Cancelling && Doomed().task.controller == 5 && Doomed().task.result == Pending
    ensures Doomed().pc == Picked && !Doomed().registered && Do(Doomed(), CancelToken) == Doomed()
  {
    TakenIs();
    CancelsStarting(Taken());
    hide Taken, Do;
  }

  lemma CancelsStarting(c: Cell)
    requires c.task.state == Starting && c.task.result == Pending && !c.registered
    ensures var d := Do(c, CancelActive);
            && d.task.state == Cancelling && d.task.result == Pending && d.task.controller == c.task.controller
            && d.pc == c.pc && !d.registered && Do(d, CancelToken) == d
  {
  }

  // The rest of the cell's life.
  function Begun(): Cell {
    Do(Doomed(), Register)
  }

  function Looked(): Cell
    requires Enabled(Begun(), Check)
  {
    Do(Begun(), Check)
  }

  lemma BegunIs()
    ensures Enabled(Begun(), Check) && Begun().task == Doomed().task && Begun().registered && Begun().pc == Pc.Begun
    ensures Looked().pc == EarlyCancel && Looked().task == Doomed().task
  {
    DoomedIs();
    hide Doomed;
  }

  lemma CancelledEnds(c: Cell)
    requires c.pc == EarlyCancel && c.task.state == Cancelling && c.task.result == Pending
    ensures Enabled(c, CancelEarly)
    ensures var e := Do(c, CancelEarly);
            && e.pc == Ending(true) && Enabled(e, Unregister)
            && Do(e, Unregister).pc == Ended(true) && Enabled(Do(e, Unregister), Join)
            && var g := Do(Do(e, Unregister), Join);
               g.pc == Gone(true) && g.task.state == Cancelled && g.task.result == Pending
  {
  }

  lemma ClaimedOne() returns (s: Sys)
    ensures Reachable(s)
    ensures s == Start(1).(phase := Up, accepting := true, runner := Registering(9),
                           cells := map[9 := Taken()], calls := map[1 := Submit(5, WANTED, SubmitOk(9))])
  {
    hide Reachable;
    s := LateSubmission(WANTED);
    ReachNext(s, ByRunner(Checks));
    s := Next(s, ByRunner(Checks)).value;
    ReachNext(s, ByRunner(Wakes));
    s := Next(s, ByRunner(Wakes)).value;
    ReachNext(s, ByRunner(Looks));
    s := Next(s, ByRunner(Looks)).value;
    assert Waiting(s.Tasks()) == {9} && IsNext(s.Tasks(), 9);
    ReachNext(s, ByRunner(Claims(9)));
    s := Next(s, ByRunner(Claims(9))).value;
  }

  // Cancelled between the claim and the start of the executor.
  lemma CancelAsked() returns (s: Sys)
    ensures Reachable(s)
    ensures s == Start(1).(phase := Up, accepting := true, runner := Registering(9), cells := map[9 := Taken()],
                           calls := map[1 := Submit(5, WANTED, SubmitOk(9)), 2 := Cancel(Some(5), 9, TryActive)])
  {
    s := ClaimedOne();
    TakenIs();
    hide Reachable, Taken, Do;
    ReachNext(s, Arrives(2, Cancel(Some(5), 9, Reading)));
    s := Next(s, Arrives(2, Cancel(Some(5), 9, Reading))).value;
    ReachNext(s, ByCancel(2, false));
    s := Next(s, ByCancel(2, false)).value;
    ReachNext(s, ByCancel(2, false));
    s := Next(s, ByCancel(2, false)).value;
  }

  lemma CancelMade() returns (s: Sys)
    ensures Reachable(s)
    ensures s == Start(1).(phase := Up, accepting := true, runner := Registering(9), cells := map[9 := Doomed()],
                           calls := map[1 := Submit(5, WANTED, SubmitOk(9)), 2 := Cancel(Some(5), 9, TokenLookup)])
  {
    assert Doomed() == Do(Taken(), CancelActive);
    hide Reachable, Taken, Doomed, Do;
    s := CancelAsked();
    ReachNext(s, ByCancel(2, false));
    s := Next(s, ByCancel(2, false)).value;
  }

  lemma CancelledEarly() returns (s: Sys)
    ensures Reachable(s)
    ensures s == Start(1).(phase := Up, accepting := true, runner := Registering(9), cells := map[9 := Doomed()],
                           calls := map[1 := Submit(5, WANTED, SubmitOk(9)), 2 := Cancel(Some(5), 9, Rereading)])
  {
    hide Reachable, Taken, Doomed, Do;
    s := CancelMade();
    DoomedIs();
    ReachNext(s, ByCancel(2, false));
    s := Next(s, ByCancel(2, false)).value;
  }

  lemma LookedEarly() returns (s: Sys)
    ensures Reachable(s) && Enabled(Begun(), Check)
    ensures s.phase.Up? && !s.fault && s.runner == Looking && s.joined == {9} && s.concurrency == 1 && !s.stop
    ensures s.cells == map[9 := Looked()]
  {
    s := CancelledEarly();
    DoomedIs();
    BegunIs();
    hide Reachable, Doomed, Do;
    ReachNext(s, ByRunner(Registers));
    s := Next(s, ByRunner(Registers)).value;
    ReachNext(s, ByExecutor(9, Check));
    s := Next(s, ByExecutor(9, Check)).value;
  }

  lemma EndedEarly() returns (s: Sys)
    ensures Reachable(s) && s.phase.Up? && !s.fault && s.runner == Looking && s.joined == {9} && s.concurrency == 1 && !s.stop
    ensures 9 in s.cells && Enabled(s.cells[9], Join) && s.cells[9].pc == Ended(true)
    ensures Do(s.cells[9], Join).pc == Gone(true)
    ensures Do(s.cells[9], Join).task.state == Cancelled && Do(s.cells[9], Join).task.result == Pending
  {
    hide Reachable, Doomed, Looked, Begun, Do, Enabled, Next;
    s := LookedEarly();
    DoomedIs();
    BegunIs();
    CancelledEnds(Looked());
    ExecutorMoves(s, 9, CancelEarly);
    s := Put(s, 9, CancelEarly);
    ExecutorMoves(s, 9, Unregister);
    s := Put(s, 9, Unregister);
  }

  // Its executor ends it and is joined without a fault, and the result is pending.
  lemma EndedButPending() returns (s: Sys)
    ensures Reachable(s) && s.phase.Up? && !s.fault && s.joined == {} && 9 in s.cells && s.cells[9].pc == Gone(true)
    ensures s.cells[9].task.state == Cancelled && s.cells[9].task.result == Pending
  {
    s := EndedEarly();
    hide Reachable, Do;
    ReachNext(s, ByRunner(Looks));
    s := Next(s, ByRunner(Looks)).value;
    ReachNext(s, ByRunner(Checks));
    s := Next(s, ByRunner(Checks)).value;
    ReachNext(s, ByRunner(Joins(9)));
    s := Next(s, ByRunner(Joins(9))).value;
  }

  // --- An end whose result is never collected --------------------------------------

  // The cell after its process has been started and recorded.
  function Started(c: Cell, out: seq<Byte>): Cell
    requires c.pc.Picked? && c.task.state == Starting
  {
    Do(Do(Do(Do(c, Register), Check), Launch(out, [])), RecordRunning)
  }

  lemma StartedIs(c: Cell, out: seq<Byte>)
    requires c.pc.Picked? && c.task.state == Starting
    ensures var w := Started(c, out);
            && w.pc == Watching && w.out == Feed(out, 0) && w.task.state == RemoteState.Running
            && w.task.bytes == c.task.bytes && |w.task.log| == |c.task.log| + 1
            && w.task.log[..|c.task.log|] == c.task.log
            && w.task.log[|c.task.log|].body.Moved? && w.task.log[|c.task.log|].body.to != Failed
  {
  }

  ghost predicate Runs(s: Sys, w: Cell) {
    && s.phase.Up? && s.runner.Looking? && s.joined == {9} && s.concurrency == 1 && !s.fault && !s.stop
    && s.cells == map[9 := w]
  }

  lemma TakenHas()
    ensures Taken().pc.Picked? && Taken().task.state == Starting && Taken().task.bytes == 0
    ensures |Taken().task.log| == 2 && forall e | e in Taken().task.log :: e.body.Moved? && e.body.to != Failed
    ensures Retained(Taken().task.log, Stdout) == []
  {
    var log := Taken().task.log;
    assert log[..1][..0] == [] && log[..1] == [log[0]];
  }

  // The task of the other examples, with a process that writes `out`.
  lemma Launches(out: seq<Byte>) returns (s: Sys)
    ensures Taken().pc.Picked? && Taken().task.state == Starting
    ensures Reachable(s) && Runs(s, Started(Taken(), out))
  {
    TakenHas();
    RegisterIs(Taken());
    hide Reachable, Taken, Do;
    s := ClaimedOne();
    ReachNext(s, ByRunner(Registers));
    s := Next(s, ByRunner(Registers)).value;
    s := Executes(s, Do(Taken(), Register), out);
  }

  lemma RegisterIs(c: Cell)
    requires c.pc.Picked?
    ensures Do(c, Register).pc.Begun? && Do(c, Register).task == c.task
  {
  }

  lemma Executes(s: Sys, c: Cell, out: seq<Byte>) returns (t: Sys)
    requires Reachable(s) && Runs(s, c) && c.pc.Begun? && c.task.state == Starting
    ensures Enabled(Do(c, Check), Launch(out, [])) && Enabled(Do(Do(c, Check), Launch(out, [])), RecordRunning)
    ensures Reachable(t) && Runs(t, Do(Do(Do(c, Check), Launch(out, [])), RecordRunning))
  {
    LaunchesIs(c, out);
    hide Reachable, Do, Enabled, Runs;
    t := Moves9(s, c, Check);
    t := Moves9(t, Do(c, Check), Launch(out, []));
    t := Moves9(t, Do(Do(c, Check), Launch(out, [])), RecordRunning);
  }

  lemma LaunchesIs(c: Cell, out: seq<Byte>)
    requires c.pc.Begun? && c.task.state == Starting
    ensures Enabled(c, Check) && Enabled(Do(c, Check), Launch(out, []))
    ensures Enabled(Do(Do(c, Check), Launch(out, [])), RecordRunning)
  {
  }

  lemma NewlyRunning(c: Cell)
    requires c.pc.Picked? && c.task.state == Starting && c.task.result == Pending && c.reason.None? && !c.early
    ensures var w := Started(c, []);
            && w.pc.Watching? && w.out == Feed([], 0) && w.err == Feed([], 0) && w.reason.None? && !w.early
            && w.task.state == RemoteState.Running && w.task.result == Pending
  {
  }

  lemma TakenFresh()
    ensures Taken().task.result == Pending && Taken().reason.None? && !Taken().early
  {
  }

  // A process that writes nothing has exited and its end has been recorded.
  lemma Exits(w: Cell)
    requires w.pc.Watching? && w.out == Feed([], 0) && w.err == Feed([], 0) && w.reason.None? && !w.early
    requires w.task.state == RemoteState.Running && w.task.result == Pending
    ensures Enabled(w, Exit(Code(0))) && Enabled(Do(w, Exit(Code(0))), CloseOutput)
    ensures var d := Do(Do(w, Exit(Code(0))), CloseOutput);
            && d.pc == Finishing(Succeeded) && d.task == w.task && !d.early
  {
    assert Pipe.Pieces([], true) == [];
  }

  lemma Finishes(c: Cell)
    requires c.pc == Finishing(Succeeded) && c.task.state == RemoteState.Running && c.task.result == Pending && !c.early
    ensures Enabled(c, Finish)
    ensures var d := Do(c, Finish);
            d.pc.Collecting? && d.task.state == Succeeded && d.task.result == Pending && !d.early
  {
  }

  // The transaction that would record its results fails.
  lemma CollectFails(c: Cell)
    requires c.pc.Collecting?
    ensures Enabled(c, Fail) && Enabled(Do(c, Fail), Unregister) && Enabled(Do(Do(c, Fail), Unregister), Join)
    ensures Do(Do(c, Fail), Unregister).pc == Ended(false)
    ensures var d := Do(Do(Do(c, Fail), Unregister), Join);
            d.pc == Gone(false) && d.task == c.task && d.early == c.early && d.torn
  {
  }

  lemma Moves9(s: Sys, c: Cell, step: Step) returns (t: Sys)
    requires Reachable(s) && Runs(s, c) && ExecutorStep(step) && Enabled(c, step)
    ensures Reachable(t) && Runs(t, Do(c, step))
  {
    hide Reachable, Do, Enabled;
    ExecutorMoves(s, 9, step);
    t := Put(s, 9, step);
  }

  lemma FinishedWell() returns (s: Sys, c: Cell)
    ensures Reachable(s) && Runs(s, c)
    ensures c.pc.Collecting? && c.task.state == Succeeded && c.task.result == Pending && !c.early
  {
    TakenHas();
    TakenFresh();
    hide Reachable, Runs, Do, Enabled, Taken, Started;
    s := Launches([]);
    c := Started(Taken(), []);
    NewlyRunning(Taken());
    Exits(c);
    s := Moves9(s, c, Exit(Code(0)));
    c := Do(c, Exit(Code(0)));
    s := Moves9(s, c, CloseOutput);
    c := Do(c, CloseOutput);
    Finishes(c);
    s := Moves9(s, c, Finish);
    c := Do(c, Finish);
  }

  // The process has ended well, that is recorded, and the result is pending, although
  // the task was never cancelled: its executor has failed.
  lemma EndedUncollected() returns (s: Sys)
    ensures Reachable(s) && s.phase.Up? && s.joined == {} && 9 in s.cells && s.cells[9].pc == Gone(false)
    ensures s.cells[9].task.state == Succeeded && s.cells[9].task.result == Pending && !s.cells[9].early
  {
    var c;
    s, c := FinishedWell();
    CollectFails(c);
    hide Reachable, Runs, Do, Enabled;
    s := Moves9(s, c, Fail);
    s := Moves9(s, Do(c, Fail), Unregister);
    s := Joined(s, Do(Do(c, Fail), Unregister));
  }

  lemma Joined(s: Sys, c: Cell) returns (t: Sys)
    requires Reachable(s) && Runs(s, c) && Enabled(c, Join) && c.pc == Ended(false)
    ensures Reachable(t) && t.phase.Up? && t.joined == {} && t.cells == map[9 := Do(c, Join)]
  {
    hide Reachable, Do, Enabled;
    t := s;
    ReachNext(t, ByRunner(Looks));
    t := Next(t, ByRunner(Looks)).value;
    ReachNext(t, ByRunner(Checks));
    t := Next(t, ByRunner(Checks)).value;
    ReachNext(t, ByRunner(Joins(9)));
    t := Next(t, ByRunner(Joins(9))).value;
  }
}
