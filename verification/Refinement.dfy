// The steps of the agent that touch the store, carried out by the store: a call of
// its methods on the rows of a state leaves the rows of the next state.
module Refinement {
  import opened Text
  import opened Tasks
  import opened Engine
  import opened Store = AgentStore
  import opened System
  import opened Safety
  import opened Theorems
  import Controller = ControllerStore
  import Protocol

  lemma KeysAreUnique(s: Sys)
    requires Reachable(s)
    ensures UniqueKeys(s.Tasks())
  {
    hide CellsInv, PhaseInv, RunnerInv, LockInv, CallsInv, QueueInv, StopInv, Reachable;
    ReachableInv(s);
    var tasks := s.Tasks();
    forall i, j | i in tasks && j in tasks && HasKey(tasks[i], tasks[j].controller, tasks[j].request.id)
      ensures i == j
    {
      assert HasKey(s.cells[i].task, s.cells[j].task.controller, s.cells[j].task.request.id);
    }
  }

  // The step can be taken, and leaves these rows.
  ghost predicate Leaves(s: Sys, a: Action, rows: map<int, Task>) {
    Next(s, a).Some? && Next(s, a).value.Tasks() == rows
  }

  // The step answers the submission, and the caller sees `pc`.
  ghost predicate Answers(s: Sys, c: int, e: SubmitEvent, pc: SubmitPc) {
    && Next(s, BySubmit(c, e)).Some? && c in Next(s, BySubmit(c, e)).value.calls
    && Next(s, BySubmit(c, e)).value.calls[c].Submit? && Next(s, BySubmit(c, e)).value.calls[c].submitPc == pc
  }

  lemma Creates(s: Sys, c: int, id: int, at: int)
    requires s.phase.Up? && c in s.calls && s.calls[c].Admitted() && id !in s.Tasks()
    requires !Knows(s.Tasks(), s.calls[c].controller, s.calls[c].request.id) && |Waiting(s.Tasks())| < MAX_WAITING
    ensures Leaves(s, BySubmit(c, SubmitCreates(id, at)),
                   s.Tasks()[id := Accepted(s.calls[c].controller, s.calls[c].request, at)])
    ensures Answers(s, c, SubmitCreates(id, at), SubmitOk(id))
  {
    hide Waiting, Knows;
    var t := Next(s, BySubmit(c, SubmitCreates(id, at))).value;
    RowsAfterPut(s, t, id, NewCell(Accepted(s.calls[c].controller, s.calls[c].request, at)));
  }

  lemma Finds(s: Sys, c: int, id: int)
    requires s.phase.Up? && c in s.calls && s.calls[c].Admitted() && id in s.Tasks()
    requires HasKey(s.Tasks()[id], s.calls[c].controller, s.calls[c].request.id)
    ensures var e := if s.Tasks()[id].request == s.calls[c].request then SubmitFinds(id) else SubmitConflicts(id);
            && Leaves(s, BySubmit(c, e), s.Tasks())
            && Answers(s, c, e, if e.SubmitFinds? then SubmitOk(id) else SubmitRefused)
  {
  }

  lemma Refuses(s: Sys, c: int)
    requires s.phase.Up? && c in s.calls && s.calls[c].Admitted()
    ensures Leaves(s, BySubmit(c, SubmitUnauthorized), s.Tasks()) && Answers(s, c, SubmitUnauthorized, SubmitRefused)
    ensures !Knows(s.Tasks(), s.calls[c].controller, s.calls[c].request.id) && |Waiting(s.Tasks())| >= MAX_WAITING ==>
              Leaves(s, BySubmit(c, SubmitFull), s.Tasks()) && Answers(s, c, SubmitFull, SubmitRefused)
  {
    hide Waiting, Knows;
  }

  // What `accept` answers decides the step the submission takes.
  method AcceptStep(store: Store.AgentStore, s: Sys, c: int, newId: int, at: int)
    returns (r: Store.Result<(int, bool)>, ghost e: SubmitEvent)
    requires Reachable(s) && s.phase.Up? && c in s.calls && s.calls[c].Admitted()
    requires store.tasks == s.Tasks() && newId !in store.tasks
    modifies store`tasks
    ensures Leaves(s, BySubmit(c, e), store.tasks)
    ensures Answers(s, c, e, if r.Ok? then SubmitOk(r.value.0) else SubmitRefused)
  {
    hide Reachable, Waiting, Leaves, Answers, Accepted;
    KeysAreUnique(s);
    var call := s.calls[c];
    r := store.Accept(call.controller, call.request, true, newId, at);
    if Knows(s.Tasks(), call.controller, call.request.id) && r != Err(Unauthorized) {
      ghost var id :| id in s.Tasks() && HasKey(s.Tasks()[id], call.controller, call.request.id);
      Finds(s, c, id);
      e := if r.Ok? then SubmitFinds(id) else SubmitConflicts(id);
    } else if r.Ok? {
      Creates(s, c, newId, at);
      e := SubmitCreates(newId, at);
    } else {
      Refuses(s, c);
      e := if r == Err(QueueFull) then SubmitFull else SubmitUnauthorized;
    }
  }

  // What `claim_next` finds decides the step of the runner.
  method ClaimStep(store: Store.AgentStore, s: Sys) returns (claimed: Option<int>, ghost e: RunnerEvent)
    requires Reachable(s) && s.phase.Up? && s.runner.Claiming? && store.tasks == s.Tasks()
    modifies store`tasks
    ensures Leaves(s, ByRunner(e), store.tasks)
    ensures Next(s, ByRunner(e)).value.runner == if claimed.Some? then Registering(claimed.value) else Checking
  {
    hide Reachable;
    claimed := store.ClaimNext();
    if claimed.None? {
      e := ClaimsNothing;
    } else {
      e := Claims(claimed.value);
      hide IsNext, Waiting;
      RowsAfterPut(s, Next(s, ByRunner(e)).value, claimed.value, Do(s.cells[claimed.value], Claim));
    }
  }

  lemma Executes(s: Sys, id: int, step: Step)
    requires Next(s, ByExecutor(id, step)).Some?
    ensures id in s.cells && ExecutorStep(step) && Enabled(s.cells[id], step)
    ensures Leaves(s, ByExecutor(id, step), s.Tasks()[id := Do(s.cells[id], step).task])
  {
    hide Do, Enabled;
    RowsAfterPut(s, Next(s, ByExecutor(id, step)).value, id, Do(s.cells[id], step));
  }

  // The row after a step that writes it.
  lemma RowAfter(c: Cell, step: Step)
    requires Enabled(c, step)
    ensures var u := Do(c, step).task;
            match step
            case CancelEarly => u == Transition(c.task, {Cancelling}, Cancelled, None, NOTE_CANCELLED_EARLY)
            case RecordLaunchFailure(why) => u == Transition(c.task, {Starting, Cancelling}, Failed, None, why)
            case RecordRunning => u == Transition(c.task, {Starting}, Running, None, NOTE_STARTED)
            case RecordTimeout => u == Transition(c.task, {Running, Starting}, Cancelling, None, NOTE_TIMED_OUT)
            case Print(stream) => u == Output(c.task, stream, FeedOf(c, stream).All()[FeedOf(c, stream).taken])
            case Finish =>
              u == Transition(c.task, {Starting, Running, Cancelling}, c.pc.final, ExitCode(c), NoteOf(c.pc.final))
            case Collect(problem) =>
              u == if c.task.WantsResults() then Collected(c.task, problem.None?, CollectNote(problem)) else c.task
            case _ => true
  {
    hide Transition, Output, Collected, Claimed, Interrupted, Unresolved;
  }

  // The store calls of `execute`, `output` and `collect`.
  method ExecutorStoreStep(store: Store.AgentStore, s: Sys, id: int, step: Step)
    requires Reachable(s) && s.phase.Up? && Next(s, ByExecutor(id, step)).Some?
    requires store.tasks == s.Tasks()
    modifies store`tasks
    ensures Leaves(s, ByExecutor(id, step), store.tasks)
  {
    var c := s.cells[id];
    Executes(s, id, step);
    RowIsSound(s, id);
    RowAfter(c, step);
    hide Reachable, Next, Leaves, Sound, Do, Output, Transition, Collected;
    match step {
      case CancelEarly =>
        var changed := store.Transition(id, {Cancelling}, Cancelled, None, NOTE_CANCELLED_EARLY);
      case RecordLaunchFailure(why) =>
        var changed := store.Transition(id, {Starting, Cancelling}, Failed, None, why);
      case RecordRunning =>
        var changed := store.Transition(id, {Starting}, Running, None, NOTE_STARTED);
      case RecordTimeout =>
        var changed := store.Transition(id, {Running, Starting}, Cancelling, None, NOTE_TIMED_OUT);
      case Print(stream) =>
        store.RecordOutput(id, stream, FeedOf(c, stream).All()[FeedOf(c, stream).taken]);
      case Finish =>
        var changed := store.Transition(id, {Starting, Running, Cancelling}, c.pc.final, ExitCode(c), NoteOf(c.pc.final));
      case Collect(problem) =>
        if c.task.WantsResults() {
          store.RecordResults(id, problem);
        } else {
          SameRow(s, id);
        }
      case _ =>
        UntouchedRow(s, id, step);
    }
  }

  lemma RowIsSound(s: Sys, id: int)
    requires Reachable(s) && id in s.cells
    ensures id in s.Tasks() && s.Tasks()[id] == s.cells[id].task && Sound(s.cells[id].task)
  {
    hide Reachable;
    ReachableCell(s, id);
  }

  lemma SameRow(s: Sys, id: int)
    requires id in s.cells
    ensures s.Tasks()[id := s.cells[id].task] == s.Tasks()
  {
  }

  lemma UntouchedRow(s: Sys, id: int, step: Step)
    requires id in s.cells && Enabled(s.cells[id], step) && ExecutorStep(step)
    requires !step.CancelEarly? && !step.RecordLaunchFailure? && !step.RecordRunning? && !step.RecordTimeout?
    requires !step.Print? && !step.Finish? && !step.Collect?
    ensures s.Tasks()[id := Do(s.cells[id], step).task] == s.Tasks()
  {
  }

  lemma Cancels(s: Sys, c: int)
    requires s.phase.Up? && c in s.calls && s.calls[c].Cancel? && Next(s, ByCancel(c, false)).Some?
    ensures var id, pc := s.calls[c].id, s.calls[c].cancelPc;
            var t := Next(s, ByCancel(c, false)).value;
            if pc.TryQueued? then id in s.cells && t.cells == s.cells[id := Do(s.cells[id], CancelQueued)]
            else if pc.TryActive? then id in s.cells && t.cells == s.cells[id := Do(s.cells[id], CancelActive)]
            else if pc.TokenLookup? then id in s.cells && t.cells == s.cells[id := Do(s.cells[id], CancelToken)]
            else t.cells == s.cells
  {
    hide Do;
  }

  // The store calls of `Runner::cancel`.
  method CancelStoreStep(store: Store.AgentStore, s: Sys, c: int)
    requires s.phase.Up? && c in s.calls && s.calls[c].Cancel? && Next(s, ByCancel(c, false)).Some?
    requires store.tasks == s.Tasks()
    modifies store`tasks
    ensures Leaves(s, ByCancel(c, false), store.tasks)
  {
    hide Transition, Next;
    Cancels(s, c);
    var id := s.calls[c].id;
    ghost var t := Next(s, ByCancel(c, false)).value;
    match s.calls[c].cancelPc {
      case TryQueued =>
        RowsAfterPut(s, t, id, Do(s.cells[id], CancelQueued));
        var changed := store.Transition(id, {Queued}, Cancelled, None, NOTE_DEQUEUED);
      case TryActive =>
        RowsAfterPut(s, t, id, Do(s.cells[id], CancelActive));
        var changed := store.Transition(id, {Starting, Running}, Cancelling, None, NOTE_CANCELLING);
      case TokenLookup =>
        RowsAfterPut(s, t, id, Do(s.cells[id], CancelToken));
        SameRow(s, id);
      case _ =>
        var read := store.Get(id, s.calls[c].who);
    }
  }

  // --- The controller's side ---------------------------------------------------------

  ghost predicate SameConnections(store: Controller.ControllerStore, w: Protocol.World)
    reads store
  {
    forall k :: (k in store.connections <==> k in w.connections)
                && (k in w.connections ==> store.connections[k].controller == w.connections[k])
  }

  // `prepare` finds the row of the command or writes it.
  method PrepareStep(store: Controller.ControllerStore, w: Protocol.World, k: int, agent: int, node: int, valid: bool, newId: int)
    returns (r: Controller.Result<int>, ghost h: Protocol.Happening)
    requires Protocol.WorldInv(w) && k in w.commands && w.commands[k].pc.Preparing?
    requires store.histories == w.histories && SameConnections(store, w) && newId !in w.histories
    modifies store`histories
    ensures r.Ok? ==>
              && Protocol.Happen(w, h).Some? && Protocol.Happen(w, h).value.histories == store.histories
              && k in Protocol.Happen(w, h).value.commands && Protocol.Happen(w, h).value.commands[k].history == r.value
    ensures r.Err? ==> store.histories == w.histories
  {
    hide Reachable;
    var pc := w.commands[k].pc;
    r := store.Prepare(pc.connection, pc.request, agent, node, valid, newId);
    h := Protocol.Prepares(k, newId);
    if r.Ok? && r.value != newId {
      h := Protocol.Finds(k, r.value);
    }
  }

  method MarkStep(store: Controller.ControllerStore, w: Protocol.World, k: int)
    requires Protocol.Happen(w, Protocol.Marks(k)).Some? && store.histories == w.histories
    modifies store`histories
    ensures store.histories == Protocol.Happen(w, Protocol.Marks(k)).value.histories
  {
    store.MarkUnknown(w.commands[k].history);
  }

  // `record_task`, its check and its write taken together.
  method RecordStep(store: Controller.ControllerStore, w: Protocol.World, k: int) returns (r: Controller.Result<()>)
    requires Protocol.Happen(w, Protocol.Checks(k)).Some? && store.histories == w.histories
    modifies store`histories
    ensures var v := Protocol.Happen(w, Protocol.Checks(k)).value;
            if r.Ok? then
              && Protocol.Happen(v, Protocol.Writes(k)).Some?
              && store.histories == Protocol.Happen(v, Protocol.Writes(k)).value.histories
            else store.histories == v.histories && v.commands[k].pc.Finished?
  {
    r := store.RecordTask(w.commands[k].history, w.commands[k].pc.view);
  }
}
