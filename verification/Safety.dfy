// What holds in every reachable state of the agent.
module Safety {
  import opened Text
  import opened Tasks
  import opened Engine
  import opened AgentStore
  import opened System

  // --- The invariant --------------------------------------------------------------

  // A task without an executor in a process that is up: it waits, or has ended with a
  // settled result.
  ghost predicate Settled(t: Task) {
    !t.state.Active() && (t.state.Terminal() ==> t.result != Pending)
  }

  ghost predicate CellsInv(s: Sys) {
    forall id | id in s.cells ::
      && CellInv(s.cells[id])
      && (if s.phase.Up? then (s.cells[id].pc.Idle? ==> Settled(s.cells[id].task)) else s.cells[id].pc.Idle?)
  }

  // Recovery still has every task to do that was left active.
  ghost predicate PhaseInv(s: Sys) {
    s.phase.Recovering? ==>
      && (forall id | id in s.phase.todo :: id in s.cells)
      && (forall id | id in s.cells && s.cells[id].task.state.Active() :: id in s.phase.todo)
  }

  ghost predicate KeysInv(s: Sys) {
    forall i, j | i in s.cells && j in s.cells && HasKey(s.cells[i].task, s.cells[j].task.controller, s.cells[j].task.request.id)
      :: i == j
  }

  function PendingOf(r: RunnerPc): set<int> {
    if r.Registering? then {r.id} else {}
  }

  // The tasks that occupy a place: their executor is in the JoinSet, is about to
  // be, or has failed.
  function Slots(s: Sys): set<int> {
    s.joined + PendingOf(s.runner) + s.orphans
  }

  ghost predicate ExecutorsInv(s: Sys) {
    && (forall id :: id in s.joined <==> id in s.cells && s.cells[id].pc.Joinable())
    && (forall id :: s.runner == Registering(id) <==> id in s.cells && s.cells[id].pc.Picked?)
    && (forall id | id in s.cells && s.cells[id].pc == Gone(false) :: id in s.orphans)
  }

  ghost predicate PlacesInv(s: Sys) {
    && (s.orphans != {} ==> s.fault || s.runner.Faulting? || s.runner.Dead?)
    && |Slots(s)| <= s.concurrency
    && (s.runner.Claiming? ==> |s.joined| < s.concurrency && !s.fault)
    && (s.runner.Done? ==> s.joined == {} && s.stop)
    && 1 <= s.concurrency <= 4
  }

  ghost predicate RunnerInv(s: Sys) {
    ExecutorsInv(s) && PlacesInv(s)
  }

  ghost predicate LockInv(s: Sys) {
    && (forall c | c in s.calls && s.calls[c].Holds() :: s.lock == Some(c))
    && (s.lock.Some? ==> s.lock.value in s.calls && s.calls[s.lock.value].Holds())
  }

  // Nothing more is accepted in this process.
  ghost predicate Closed(s: Sys) {
    !s.accepting && forall c | c in s.calls :: !s.calls[c].Admitted()
  }

  ghost predicate NothingRunnable(s: Sys) {
    forall id | id in s.cells :: !s.cells[id].task.state.Runnable()
  }

  ghost predicate CancelInv(s: Sys, who: Option<int>, id: int, pc: CancelPc) {
    pc.Reading? || pc.Errored? ||
    (&& id in s.cells
     && (who.Some? ==> s.cells[id].task.controller == who.value)
     && (pc.TryActive? ==> s.cells[id].task.state != Queued)
     && (pc.TokenLookup? ==> !s.cells[id].task.state.Runnable())
     && (pc.Rereading? || pc.Returned? ==> Delivered(s.cells[id])))
  }

  ghost predicate CallInv(s: Sys, call: Call) {
    match call
    case Submit(controller, request, pc) =>
      pc.SubmitOk? ==> pc.id in s.cells && HasKey(s.cells[pc.id].task, controller, request.id)
                       && s.cells[pc.id].task.request == request
    case Cancel(who, id, pc) => CancelInv(s, who, id, pc)
    case Stop(abort, pc) =>
      && (!pc.StopWaiting? && !pc.StopLocked? ==> Closed(s))
      && (pc.StopDone? ==> s.stop)
      && (pc.StopListing? ==> abort)
      && (abort && (pc.StopSignalling? || pc.StopDone?) ==> NothingRunnable(s))
      && (pc.StopCancelling? ==>
            && abort
            && (forall id | id in pc.todo :: id in s.cells)
            && (forall id | id in s.cells && s.cells[id].task.state.Runnable() :: id in pc.todo)
            && !pc.at.Returned? && !pc.at.Errored?
            && (pc.todo != [] ==> CancelInv(s, None, pc.todo[0], pc.at)))
  }

  ghost predicate CallsInv(s: Sys) {
    forall c | c in s.calls :: CallInv(s, s.calls[c])
  }

  ghost predicate QueueInv(s: Sys) {
    |Waiting(s.Tasks())| <= MAX_WAITING
  }

  ghost predicate StopInv(s: Sys) {
    && (s.stop ==> Closed(s))
    && (s.emptyAfterStop ==> s.stop && Waiting(s.Tasks()) == {})
    && (!s.phase.Up? ==> s.calls == map[] && s.lock.None? && !s.stop && !s.emptyAfterStop && s.joined == {} && s.orphans == {}
                         && s.runner.Dead?)
  }

  ghost predicate Inv(s: Sys) {
    CellsInv(s) && PhaseInv(s) && KeysInv(s) && RunnerInv(s) && LockInv(s) && CallsInv(s) && QueueInv(s) && StopInv(s)
  }

  // --- Steps that change one task ---------------------------------------------

  // How a task may change without disturbing the calls about it.
  ghost predicate Later(c: Cell, d: Cell) {
    Forward(c.task, d.task) && (Delivered(c) ==> Delivered(d))
  }

  ghost predicate Evolves(s: Sys, t: Sys) {
    && (forall id | id in s.cells :: id in t.cells && Later(s.cells[id], t.cells[id]))
    && (Closed(s) ==> Closed(t) && t.cells.Keys == s.cells.Keys)
    && (s.stop ==> t.stop)
  }

  lemma StepIsLater(c: Cell, step: Step)
    requires CellInv(c) && Enabled(c, step) && !step.Crash?
    ensures Later(c, Do(c, step))
  {
    hide CellInv, Do, Enabled, Forward, Delivered;
    StepMoves(c, step);
    if Delivered(c) {
      DeliveredStays(c, step);
    }
  }

  lemma CancelInvStays(s: Sys, t: Sys, who: Option<int>, id: int, pc: CancelPc)
    requires CancelInv(s, who, id, pc) && Evolves(s, t)
    ensures CancelInv(t, who, id, pc)
  {
    hide Delivered, Closed;
    if id in s.cells {
      assert Later(s.cells[id], t.cells[id]);
      ForwardMeans(s.cells[id].task, t.cells[id].task);
    }
  }

  lemma CallInvStays(s: Sys, t: Sys, call: Call)
    requires CallInv(s, call) && Evolves(s, t)
    ensures CallInv(t, call)
  {
    hide Delivered, Closed, CancelInv, Forward;
    if call.Cancel? {
      CancelInvStays(s, t, call.who, call.id, call.cancelPc);
    } else if call.Submit? {
      if call.submitPc.SubmitOk? {
        assert Later(s.cells[call.submitPc.id], t.cells[call.submitPc.id]);
        LaterKeepsKey(s.cells[call.submitPc.id], t.cells[call.submitPc.id]);
      }
    } else {
      if call.stopPc.StopCancelling? && call.stopPc.todo != [] {
        CancelInvStays(s, t, None, call.stopPc.todo[0], call.stopPc.at);
      }
      RunnableShrinks(s, t);
    }
  }

  lemma LaterKeepsKey(c: Cell, d: Cell)
    requires Later(c, d)
    ensures d.task.request == c.task.request && d.task.controller == c.task.controller
  {
  }

  lemma RunnableShrinks(s: Sys, t: Sys)
    requires Evolves(s, t)
    ensures forall id | id in s.cells && t.cells[id].task.state.Runnable() :: s.cells[id].task.state.Runnable()
    ensures forall id | id in s.cells && t.cells[id].task.state == Queued :: s.cells[id].task.state == Queued
  {
    forall id | id in s.cells
      ensures t.cells[id].task.state.Runnable() ==> s.cells[id].task.state.Runnable()
      ensures t.cells[id].task.state == Queued ==> s.cells[id].task.state == Queued
    {
      assert Later(s.cells[id], t.cells[id]);
      ForwardMeans(s.cells[id].task, t.cells[id].task);
    }
  }

  lemma CallsStay(s: Sys, t: Sys)
    requires CallsInv(s) && Evolves(s, t) && t.calls == s.calls
    ensures CallsInv(t)
  {
    hide CallInv, Evolves;
    forall c | c in t.calls ensures CallInv(t, t.calls[c]) {
      CallInvStays(s, t, s.calls[c]);
    }
  }

  // The parts of the invariant that depend only on the tasks, after one step of
  // one task. The runner's part is proved with the event that takes the step.
  lemma PutKeeps(s: Sys, id: int, step: Step)
    requires Inv(s) && s.phase.Up? && id in s.cells && Enabled(s.cells[id], step) && !step.Crash?
    requires step.CancelToken? ==> !s.cells[id].task.state.Runnable()
    ensures var t := Put(s, id, step);
            CellsInv(t) && KeysInv(t) && QueueInv(t) && Evolves(s, t) && CallsInv(t) && LockInv(t) && StopInv(t)
  {
    hide CellInv, Do, Enabled, Forward, Delivered, CallInv;
    var t := Put(s, id, step);
    var c, d := s.cells[id], t.cells[id];
    StepKeeps(c, step);
    StepIsLater(c, step);
    StepStaysBusy(c, step);
    LaterKeepsKey(c, d);
    forall i | i in s.cells ensures Later(s.cells[i], t.cells[i]) {
      if i != id {
        LaterRefl(s.cells[i]);
      }
    }
    RunnableShrinks(s, t);
    QueueShrinks(s, t);
    CallsStay(s, t);
  }

  lemma LaterRefl(c: Cell)
    ensures Later(c, c)
  {
  }

  // An executor, once there, does not vanish, and only a claim makes a task active.
  lemma StepStaysBusy(c: Cell, step: Step)
    requires CellInv(c) && Enabled(c, step) && !step.Crash?
    requires c.pc.Idle? ==> Settled(c.task)
    ensures Do(c, step).pc.Idle? ==> Settled(Do(c, step).task)
  {
    hide CellInv, Settled, Do, Enabled;
    if Do(c, step).pc.Idle? {
      StaysIdle(c, step);
      StaysSettled(c, step);
    }
  }

  lemma StaysIdle(c: Cell, step: Step)
    requires Enabled(c, step) && !step.Crash? && Do(c, step).pc.Idle?
    ensures c.pc.Idle? && (step.CancelQueued? || step.CancelActive? || step.CancelToken? || step.Interrupt? || step.Resolve?)
  {
    if ExecutorStep(step) {
      ExecutorStaysJoinable(c, step);
    }
    hide Transition, Output, Collected, Claimed, Interrupted, Unresolved;
  }

  lemma StaysSettled(c: Cell, step: Step)
    requires Enabled(c, step) && Settled(c.task)
    requires step.CancelQueued? || step.CancelActive? || step.CancelToken? || step.Interrupt? || step.Resolve?
    ensures Settled(Do(c, step).task)
  {
    hide MaxSeq;
  }

  lemma QueueShrinks(s: Sys, t: Sys)
    requires t.cells.Keys == s.cells.Keys
    requires forall id | id in s.cells && t.cells[id].task.state == Queued :: s.cells[id].task.state == Queued
    ensures Waiting(t.Tasks()) <= Waiting(s.Tasks())
    ensures |Waiting(t.Tasks())| <= |Waiting(s.Tasks())|
  {
    forall id | id in Waiting(t.Tasks()) ensures id in Waiting(s.Tasks()) {
      assert t.Tasks()[id] == t.cells[id].task && s.Tasks()[id] == s.cells[id].task;
    }
    SubsetSize(Waiting(t.Tasks()), Waiting(s.Tasks()));
  }

  lemma {:induction false} SubsetSize(a: set<int>, b: set<int>)
    requires a <= b
    ensures |a| <= |b|
  {
    assert b == a + (b - a);
  }

  // --- The places of the runner --------------------------------------------------

  lemma SamePlaces(s: Sys, t: Sys)
    requires PlacesInv(s)
    requires t.joined == s.joined && t.orphans == s.orphans && t.runner == s.runner && t.fault == s.fault
    requires t.concurrency == s.concurrency && (s.stop ==> t.stop)
    ensures PlacesInv(t)
  {
    assert Slots(t) == Slots(s);
  }

  // --- The process ------------------------------------------------------------------

  // A process without executors, calls or flags.
  ghost predicate Blank(s: Sys) {
    && s.joined == {} && s.orphans == {} && s.calls == map[] && s.lock.None? && !s.stop && !s.emptyAfterStop
    && (if s.phase.Up? then s.runner.Looking? else s.runner.Dead?)
    && (forall id | id in s.cells :: s.cells[id].pc.Idle?)
    && 1 <= s.concurrency <= 4
  }

  lemma BlankInv(s: Sys)
    requires Blank(s)
    ensures RunnerInv(s) && LockInv(s) && CallsInv(s) && StopInv(s)
  {
    assert Slots(s) == {};
  }

  // Tasks that kept their identity and did not go back to the queue.
  lemma IdentitiesStay(s: Sys, t: Sys)
    requires KeysInv(s) && QueueInv(s) && t.cells.Keys == s.cells.Keys
    requires forall id | id in s.cells :: Forward(s.cells[id].task, t.cells[id].task)
    ensures KeysInv(t) && QueueInv(t)
  {
    forall id | id in s.cells
      ensures t.cells[id].task.controller == s.cells[id].task.controller && t.cells[id].task.request == s.cells[id].task.request
      ensures t.cells[id].task.state == Queued ==> s.cells[id].task.state == Queued
    {
      ForwardMeans(s.cells[id].task, t.cells[id].task);
    }
    QueueShrinks(s, t);
  }

  lemma CrashKeeps(s: Sys)
    requires Inv(s)
    ensures Inv(ProcessStep(s, Crashes).value)
  {
    hide CellInv, Do, CallsInv, LockInv, StopInv, RunnerInv, KeysInv, QueueInv, Forward;
    var t := ProcessStep(s, Crashes).value;
    forall id | id in s.cells
      ensures CellInv(t.cells[id]) && t.cells[id].pc.Idle? && Forward(s.cells[id].task, t.cells[id].task)
    {
      StepKeeps(s.cells[id], Crash);
      StepMoves(s.cells[id], Crash);
      CrashIdles(s.cells[id]);
    }
    IdentitiesStay(s, t);
    Concurrency(s);
    BlankInv(t);
  }

  lemma Concurrency(s: Sys)
    requires RunnerInv(s)
    ensures 1 <= s.concurrency <= 4
  {
  }

  lemma CrashIdles(c: Cell)
    ensures Enabled(c, Crash) && Do(c, Crash).pc.Idle?
  {
  }

  // While the agent is down it is blank.
  lemma DownIsBlank(s: Sys)
    requires Inv(s) && !s.phase.Up?
    ensures Blank(s)
  {
  }

  lemma OpenKeeps(s: Sys, ids: seq<int>)
    requires Inv(s) && ProcessStep(s, Opens(ids)).Some?
    ensures Inv(ProcessStep(s, Opens(ids)).value)
  {
    hide CellInv, CallInv;
    var t := ProcessStep(s, Opens(ids)).value;
    assert t.Tasks() == s.Tasks();
    DownIsBlank(s);
    BlankInv(t);
  }

  lemma RecoverOneKeeps(s: Sys)
    requires Inv(s) && ProcessStep(s, RecoversOne).Some?
    ensures Inv(ProcessStep(s, RecoversOne).value)
  {
    hide CellInv, CallsInv, LockInv, RunnerInv, KeysInv, QueueInv, Do, Enabled, Forward;
    var t := ProcessStep(s, RecoversOne).value;
    var id := s.phase.todo[0];
    var c := s.cells[id];
    StepKeeps(c, Interrupt);
    StepMoves(c, Interrupt);
    InterruptSettles(c);
    assert forall i | i in s.phase.todo :: i == id || i in s.phase.todo[1..];
    forall i | i in s.cells ensures Forward(s.cells[i].task, t.cells[i].task) {
      ForwardRefl(s.cells[i].task);
    }
    IdentitiesStay(s, t);
    DownIsBlank(s);
    BlankInv(t);
  }

  lemma ForwardRefl(t: Task)
    ensures Forward(t, t)
  {
  }

  lemma InterruptSettles(c: Cell)
    requires Enabled(c, Interrupt)
    ensures Do(c, Interrupt).pc.Idle? && !Do(c, Interrupt).task.state.Active()
  {
  }

  lemma RecoverRestKeeps(s: Sys)
    requires Inv(s) && ProcessStep(s, RecoversRest).Some?
    ensures Inv(ProcessStep(s, RecoversRest).value)
  {
    hide CellInv, CallsInv, LockInv, StopInv, RunnerInv, KeysInv, QueueInv, Do, Enabled, Forward;
    var t := ProcessStep(s, RecoversRest).value;
    forall id | id in s.cells
      ensures CellInv(t.cells[id]) && t.cells[id].pc.Idle? && Forward(s.cells[id].task, t.cells[id].task)
              && Settled(t.cells[id].task)
    {
      assert Enabled(s.cells[id], Resolve);
      StepKeeps(s.cells[id], Resolve);
      StepMoves(s.cells[id], Resolve);
      ResolveIdles(s.cells[id]);
    }
    IdentitiesStay(s, t);
    Concurrency(s);
    BlankInv(t);
  }

  lemma ResolveIdles(c: Cell)
    requires Enabled(c, Resolve)
    ensures Do(c, Resolve).pc.Idle? && Do(c, Resolve).task.state == c.task.state
    ensures !c.task.state.Active() ==> Settled(Do(c, Resolve).task)
  {
  }

  // --- The runner ---------------------------------------------------------------------

  // Everything but the runner's own part, when only the runner's fields change.
  lemma RunnerFieldsKeep(s: Sys, t: Sys)
    requires CellsInv(s) && KeysInv(s) && QueueInv(s) && CallsInv(s) && LockInv(s) && StopInv(s) && s.phase.Up?
    requires t == s.(runner := t.runner, joined := t.joined, orphans := t.orphans, fault := t.fault, accepting := t.accepting,
                    late := t.late)
    requires t.accepting ==> s.accepting
    ensures CellsInv(t) && PhaseInv(t) && KeysInv(t) && QueueInv(t) && CallsInv(t) && LockInv(t) && StopInv(t)
  {
    hide CellInv, CallInv, KeysInv;
    assert t.Tasks() == s.Tasks();
    assert KeysInv(t) by { KeysDepend(s, t); }
    SameEvolves(s, t);
    CallsStay(s, t);
  }

  lemma KeysDepend(s: Sys, t: Sys)
    requires KeysInv(s) && t.cells == s.cells
    ensures KeysInv(t)
  {
  }

  // A move of the runner that touches no task.
  lemma RunnerMoveKeeps(s: Sys, r: RunnerEvent)
    requires Inv(s) && s.phase.Up? && RunnerStep(s, r).Some?
    requires r.Looks? || r.Checks? || r.Wakes? || r.Faults?
    ensures Inv(RunnerStep(s, r).value)
  {
    hide CellsInv, KeysInv, QueueInv, CallsInv, LockInv, StopInv, PhaseInv, ExecutorsInv, PlacesInv;
    var t := RunnerStep(s, r).value;
    MovePlaces(s, r);
    SameExecutors(s, t);
    RunnerFieldsKeep(s, t);
  }

  lemma MovePlaces(s: Sys, r: RunnerEvent)
    requires PlacesInv(s) && RunnerStep(s, r).Some? && (r.Looks? || r.Checks? || r.Wakes? || r.Faults?)
    ensures PlacesInv(RunnerStep(s, r).value)
  {
    MoveFields(s, r);
    hide RunnerStep;
    var t := RunnerStep(s, r).value;
    assert Slots(t) == Slots(s);
  }

  lemma MoveFields(s: Sys, r: RunnerEvent)
    requires RunnerStep(s, r).Some? && (r.Looks? || r.Checks? || r.Wakes? || r.Faults?)
    ensures var t := RunnerStep(s, r).value;
            && t == s.(runner := t.runner, fault := t.fault)
            && !s.runner.Registering? && !t.runner.Registering? && !s.runner.Dead? && !t.runner.Dead? && !t.runner.Faulting?
            && (s.runner.Faulting? || s.fault ==> t.fault)
            && (t.runner.Claiming? ==> |s.joined| < s.concurrency && !t.fault)
            && (t.runner.Done? ==> s.joined == {} && s.stop)
  {
    hide Do, Enabled, IsNext, Waiting, Put;
  }

  lemma SameExecutors(s: Sys, t: Sys)
    requires ExecutorsInv(s) && t.cells == s.cells && t.joined == s.joined && t.orphans == s.orphans
    requires !s.runner.Registering? && !t.runner.Registering?
    ensures ExecutorsInv(t)
  {
  }

  lemma SameEvolves(s: Sys, t: Sys)
    requires t.cells == s.cells && (Closed(s) ==> Closed(t)) && (s.stop ==> t.stop)
    ensures Evolves(s, t)
  {
    hide Closed;
    forall id | id in s.cells ensures Later(s.cells[id], t.cells[id]) {
      LaterRefl(s.cells[id]);
    }
  }

  lemma ClaimNothingKeeps(s: Sys)
    requires Inv(s) && s.phase.Up? && RunnerStep(s, ClaimsNothing).Some?
    ensures Inv(RunnerStep(s, ClaimsNothing).value)
  {
    hide CellInv, CallInv;
    var t := RunnerStep(s, ClaimsNothing).value;
    assert t.Tasks() == s.Tasks();
    assert Slots(t) == Slots(s);
    SameEvolves(s, t);
    CallsStay(s, t);
  }

  lemma ClaimSteps(c: Cell)
    requires CellInv(c) && Enabled(c, Claim)
    ensures c.pc.Idle? && Do(c, Claim).pc == Picked
  {
    hide TaskInv, Kept, AllTaken;
  }

  lemma ClaimKeeps(s: Sys, id: int)
    requires Inv(s) && s.phase.Up? && RunnerStep(s, Claims(id)).Some?
    ensures Inv(RunnerStep(s, Claims(id)).value)
  {
    hide CellInv, KeysInv, QueueInv, CallsInv, LockInv, StopInv, PhaseInv, RunnerInv, Do, Enabled, Evolves;
    var u := Put(s, id, Claim);
    var t := RunnerStep(s, Claims(id)).value;
    ClaimSteps(s.cells[id]);
    PutKeeps(s, id, Claim);
    ClaimRunner(s, t, id);
    RunnerFieldsKeep(u, t);
  }

  lemma ClaimRunner(s: Sys, t: Sys, id: int)
    requires RunnerInv(s) && s.runner.Claiming? && id in s.cells && id in t.cells
    requires s.cells[id].pc.Idle? && t.cells[id].pc == Picked
    requires t == s.(cells := s.cells[id := t.cells[id]], runner := Registering(id), late := t.late)
    ensures RunnerInv(t)
  {
    hide PlacesInv;
    ClaimPlaces(s, t, id);
  }

  lemma ClaimPlaces(s: Sys, t: Sys, id: int)
    requires PlacesInv(s) && s.runner.Claiming? && t == s.(cells := t.cells, runner := Registering(id), late := t.late)
    ensures PlacesInv(t)
  {
    assert s.orphans == {};
    assert Slots(t) == s.joined + {id};
  }

  lemma RegisterSteps(c: Cell)
    requires Enabled(c, Register)
    ensures Do(c, Register).pc == Begun
  {
  }

  lemma RegisterKeeps(s: Sys)
    requires Inv(s) && s.phase.Up? && RunnerStep(s, Registers).Some?
    ensures Inv(RunnerStep(s, Registers).value)
  {
    hide CellsInv, KeysInv, QueueInv, CallsInv, LockInv, StopInv, PhaseInv, Do, Enabled, Slots;
    var id := s.runner.id;
    var u := Put(s, id, Register);
    var t := RunnerStep(s, Registers).value;
    RegisterSteps(s.cells[id]);
    PutKeeps(s, id, Register);
    RegisterRunner(s, t, id);
    RunnerFieldsKeep(u, t);
  }

  lemma RegisterRunner(s: Sys, t: Sys, id: int)
    requires RunnerInv(s) && s.runner == Registering(id) && id in s.cells && t.cells.Keys == s.cells.Keys
    requires forall i | i in s.cells && i != id :: t.cells[i] == s.cells[i]
    requires t.cells[id].pc == Begun
    requires t == s.(cells := t.cells, runner := Looking, joined := s.joined + {id})
    ensures RunnerInv(t)
  {
    assert Slots(t) == Slots(s);
  }

  lemma JoinSteps(c: Cell)
    requires Enabled(c, Join)
    ensures c.pc.Ended? && Do(c, Join).pc == Gone(c.pc.ok)
  {
  }

  lemma JoinKeeps(s: Sys, id: int)
    requires Inv(s) && s.phase.Up? && RunnerStep(s, Joins(id)).Some?
    ensures Inv(RunnerStep(s, Joins(id)).value)
  {
    hide CellsInv, KeysInv, QueueInv, CallsInv, LockInv, StopInv, PhaseInv, Do, Enabled, Slots;
    var u := Put(s, id, Join);
    var t := RunnerStep(s, Joins(id)).value;
    JoinSteps(s.cells[id]);
    PutKeeps(s, id, Join);
    JoinRunner(s, t, id);
    RunnerFieldsKeep(u, t);
  }

  lemma JoinRunner(s: Sys, t: Sys, id: int)
    requires RunnerInv(s) && s.runner.Selecting? && id in s.joined && t.cells.Keys == s.cells.Keys
    requires forall i | i in s.cells && i != id :: t.cells[i] == s.cells[i]
    requires t == s.(cells := t.cells, runner := t.runner, joined := s.joined - {id}, orphans := t.orphans, accepting := t.accepting)
    requires (t.cells[id].pc == Gone(true) && t.runner.Looking? && t.orphans == s.orphans)
             || (t.cells[id].pc == Gone(false) && t.runner.Faulting? && t.orphans == s.orphans + {id})
    ensures RunnerInv(t)
  {
    hide Slots;
    JoinSlots(s, t, id);
    assert t.cells[id].pc.Gone?;
    forall i ensures i in t.joined <==> i in t.cells && t.cells[i].pc.Joinable() {
      if i in s.cells && i != id {
        assert t.cells[i] == s.cells[i];
      }
    }
  }

  lemma JoinSlots(s: Sys, t: Sys, id: int)
    requires id in s.joined && s.runner.Selecting? && !t.runner.Registering?
    requires t.joined == s.joined - {id} && (t.orphans == s.orphans || t.orphans == s.orphans + {id})
    ensures |Slots(t)| <= |Slots(s)|
  {
    SubsetSize(Slots(t), Slots(s));
  }

  // Dropping the JoinSet aborts its executors wherever they are.
  lemma AbortKeeps(c: Cell)
    requires CellInv(c) && c.pc.Joinable()
    ensures Enabled(c, Drop)
    ensures var d := Do(c, Drop); CellInv(d) && Later(c, d) && d.task == c.task && d.pc == Gone(false)
  {
    assert Enabled(c, Drop) && Do(c, Drop).task == c.task && Do(c, Drop).pc == Gone(false);
    hide Do, Enabled, CellInv, Later;
    StepKeeps(c, Drop);
    StepIsLater(c, Drop);
  }

  lemma ClaimFailKeeps(s: Sys)
    requires Inv(s) && s.phase.Up? && RunnerStep(s, ClaimFails).Some?
    ensures Inv(RunnerStep(s, ClaimFails).value)
  {
    hide CellsInv, KeysInv, QueueInv, CallsInv, LockInv, PlacesInv, Later, Closed, Do, Enabled;
    var t := RunnerStep(s, ClaimFails).value;
    JoinedAbort(s, t);
    SameRows(s, t);
    DeadPlaces(s, t);
    ClosedStays(s, t);
    CallsStay(s, t);
    SameLock(s, t);
  }

  lemma JoinedAbort(s: Sys, t: Sys)
    requires CellsInv(s) && ExecutorsInv(s) && s.phase.Up? && RunnerStep(s, ClaimFails) == Some(t)
    ensures CellsInv(t) && t.cells.Keys == s.cells.Keys
    ensures forall id | id in s.cells ::
              && Later(s.cells[id], t.cells[id]) && t.cells[id].task == s.cells[id].task
              && t.cells[id].pc == if id in s.joined then Gone(false) else s.cells[id].pc
  {
    hide CellInv, Later, Do, Enabled;
    forall id | id in s.cells
      ensures CellInv(t.cells[id]) && Later(s.cells[id], t.cells[id]) && t.cells[id].task == s.cells[id].task
      ensures t.cells[id].pc == if id in s.joined then Gone(false) else s.cells[id].pc
    {
      if id in s.joined {
        AbortKeeps(s.cells[id]);
      } else {
        LaterRefl(s.cells[id]);
      }
    }
  }

  lemma SameRows(s: Sys, t: Sys)
    requires KeysInv(s) && QueueInv(s) && t.cells.Keys == s.cells.Keys
    requires forall id | id in s.cells :: t.cells[id].task == s.cells[id].task
    ensures KeysInv(t) && QueueInv(t) && t.Tasks() == s.Tasks()
  {
    assert t.Tasks().Keys == s.Tasks().Keys;
    forall id | id in s.cells ensures t.Tasks()[id] == s.Tasks()[id] {
    }
    assert t.Tasks() == s.Tasks();
  }

  lemma SameLock(s: Sys, t: Sys)
    requires LockInv(s) && t.calls == s.calls && t.lock == s.lock
    ensures LockInv(t)
  {
  }

  lemma ClosedStays(s: Sys, t: Sys)
    requires t.calls == s.calls && t.accepting == s.accepting
    ensures Closed(t) <==> Closed(s)
  {
  }

  lemma DeadPlaces(s: Sys, t: Sys)
    requires PlacesInv(s) && s.runner.Claiming?
    requires t.runner.Dead? && t.joined == {} && t.orphans == s.orphans + s.joined && t.concurrency == s.concurrency
    ensures PlacesInv(t)
  {
    assert Slots(t) == Slots(s);
  }

  lemma RunnerKeeps(s: Sys, r: RunnerEvent)
    requires Inv(s) && s.phase.Up? && RunnerStep(s, r).Some?
    ensures Inv(RunnerStep(s, r).value)
  {
    hide Inv, RunnerStep;
    match r
    case Claims(id) => ClaimKeeps(s, id);
    case ClaimsNothing => ClaimNothingKeeps(s);
    case ClaimFails => ClaimFailKeeps(s);
    case Registers => RegisterKeeps(s);
    case Joins(id) => JoinKeeps(s, id);
    case _ => RunnerMoveKeeps(s, r);
  }

  // --- The executors ----------------------------------------------------------------

  lemma ExecutorStaysJoinable(c: Cell, step: Step)
    requires Enabled(c, step) && ExecutorStep(step)
    ensures Do(c, step).pc.Joinable()
  {
  }

  lemma ExecutorKeeps(s: Sys, id: int, step: Step)
    requires Inv(s) && s.phase.Up? && ExecutorStepOf(s, id, step).Some?
    ensures Inv(ExecutorStepOf(s, id, step).value)
  {
    hide CellsInv, KeysInv, QueueInv, CallsInv, LockInv, StopInv, PhaseInv, RunnerInv, Do, Enabled, Evolves;
    var t := ExecutorStepOf(s, id, step).value;
    NotProcessStep(step);
    PutKeeps(s, id, step);
    ExecutorStaysJoinable(s.cells[id], step);
    ExecutorRunner(s, t, id);
    PhaseUp(t);
  }

  lemma ExecutorRunner(s: Sys, t: Sys, id: int)
    requires RunnerInv(s) && id in s.joined && id in s.cells && id in t.cells && t == s.(cells := s.cells[id := t.cells[id]])
    requires t.cells[id].pc.Joinable()
    ensures RunnerInv(t)
  {
    hide PlacesInv;
    SamePlaces(s, t);
    assert s.cells[id].pc.Joinable();
  }

  lemma NotProcessStep(step: Step)
    requires ExecutorStep(step)
    ensures !step.Crash? && !step.CancelToken?
  {
  }

  // --- The calls ----------------------------------------------------------------------

  // One call moved on and nothing else changed but the lock and the flags.
  lemma CallMoves(s: Sys, t: Sys, c: int)
    requires CellsInv(s) && KeysInv(s) && QueueInv(s) && CallsInv(s) && RunnerInv(s) && s.phase.Up?
    requires c in t.calls && CallInv(t, t.calls[c])
    requires t == s.(calls := s.calls[c := t.calls[c]], lock := t.lock, accepting := t.accepting, stop := t.stop)
    requires (Closed(s) ==> Closed(t)) && (s.stop ==> t.stop)
    ensures CellsInv(t) && PhaseInv(t) && KeysInv(t) && QueueInv(t) && CallsInv(t) && RunnerInv(t)
  {
    hide CellInv, CallInv, KeysInv, Closed;
    assert t.Tasks() == s.Tasks();
    assert Slots(t) == Slots(s);
    KeysDepend(s, t);
    SameEvolves(s, t);
    forall k | k in t.calls ensures CallInv(t, t.calls[k]) {
      if k != c {
        CallInvStays(s, t, s.calls[k]);
      }
    }
  }

  lemma ArriveKeeps(s: Sys, c: int, call: Call)
    requires Inv(s) && s.phase.Up? && c !in s.calls && call.Initial()
    ensures Inv(Set(s, c, call))
  {
    hide CellInv;
    var t := Set(s, c, call);
    assert t.Tasks() == s.Tasks();
    CallMoves(s, t, c);
  }

  lemma SubmitQuietKeeps(s: Sys, c: int, e: SubmitEvent)
    requires Inv(s) && s.phase.Up? && c in s.calls && s.calls[c].Submit? && SubmitStep(s, c, e).Some?
    requires !e.SubmitCreates?
    ensures Inv(SubmitStep(s, c, e).value)
  {
    hide CellsInv, KeysInv, QueueInv, RunnerInv, CallsInv;
    var t := SubmitStep(s, c, e).value;
    assert t.Tasks() == s.Tasks();
    assert CallInv(t, t.calls[c]);
    CallMoves(s, t, c);
    SubmitLock(s, t, c);
  }

  lemma SubmitLock(s: Sys, t: Sys, c: int)
    requires LockInv(s) && c in s.calls && c in t.calls && t.calls == s.calls[c := t.calls[c]]
    requires (t.lock == Some(c) && t.calls[c].Holds() && (s.lock.None? || s.lock == t.lock))
             || (t.lock.None? && !t.calls[c].Holds() && s.lock == Some(c))
    ensures LockInv(t)
  {
  }

  lemma HolderLocks(s: Sys, c: int)
    requires LockInv(s) && c in s.calls && s.calls[c].Holds()
    ensures s.lock == Some(c)
  {
  }

  lemma CallInvAt(s: Sys, c: int)
    requires CallsInv(s) && c in s.calls
    ensures CallInv(s, s.calls[c])
  {
  }

  lemma NewCellInv(controller: int, request: Request, at: int)
    ensures CellInv(NewCell(Accepted(controller, request, at)))
  {
    var t := Accepted(controller, request, at);
    AcceptedSound(controller, request, at);
    var blank := t.(log := []);
    StageAppend(blank, Moved(Queued, NOTE_ACCEPTED));
    assert t == Append(blank, Moved(Queued, NOTE_ACCEPTED));
    AppendReads(blank, Moved(Queued, NOTE_ACCEPTED));
    assert NewCell(t).out.Seen() == [];
  }

  lemma QueueGrows(s: Sys, t: Sys, id: int)
    requires id !in s.cells && t.cells.Keys == s.cells.Keys + {id} && t.cells[id].task.state == Queued
    requires forall i | i in s.cells :: t.cells[i] == s.cells[i]
    ensures Waiting(t.Tasks()) == Waiting(s.Tasks()) + {id}
  {
    forall i ensures i in Waiting(t.Tasks()) <==> i in Waiting(s.Tasks()) + {id} {
      if i in s.cells {
        assert t.Tasks()[i] == s.Tasks()[i];
      }
    }
  }

  lemma CreateKeeps(s: Sys, c: int, id: int, at: int)
    requires Inv(s) && s.phase.Up? && c in s.calls && s.calls[c].Submit? && SubmitStep(s, c, SubmitCreates(id, at)).Some?
    ensures Inv(SubmitStep(s, c, SubmitCreates(id, at)).value)
  {
    hide CellsInv, RunnerInv, KeysInv, QueueInv, CallsInv, LockInv, StopInv, Accepted;
    var call := s.calls[c];
    var t := SubmitStep(s, c, SubmitCreates(id, at)).value;
    NewCellInv(call.controller, call.request, at);
    AcceptedIs(call.controller, call.request, at);
    CreateCells(s, t, id);
    NotStopped(s, c);
    CreateStop(s, t);
    CreateRunner(s, t, id);
    CreateKeys(s, t, id);
    HolderLocks(s, c);
    SubmitLock(s, t, c);
    CreateCalls(s, t, c, id);
  }

  // While a submission is past its check, no stop request has gone through.
  lemma NotStopped(s: Sys, c: int)
    requires StopInv(s) && c in s.calls && s.calls[c].Admitted()
    ensures !Closed(s) && !s.stop && !s.emptyAfterStop
  {
  }

  lemma CreateStop(s: Sys, t: Sys)
    requires s.phase.Up? && !s.stop && !s.emptyAfterStop
    requires t == s.(cells := t.cells, calls := t.calls, lock := t.lock, late := t.late)
    ensures StopInv(t)
  {
  }

  lemma CreateCells(s: Sys, t: Sys, id: int)
    requires CellsInv(s) && QueueInv(s) && s.phase.Up? && |Waiting(s.Tasks())| < MAX_WAITING
    requires id !in s.cells && id in t.cells && t.cells == s.cells[id := t.cells[id]]
    requires CellInv(t.cells[id]) && t.cells[id].pc.Idle? && t.cells[id].task.state == Queued && t.phase == s.phase
    ensures CellsInv(t) && QueueInv(t)
  {
    hide CellInv, Settled;
    QueuedIsSettled(t.cells[id].task);
    QueueGrows(s, t, id);
  }

  lemma QueuedIsSettled(t: Task)
    requires t.state == Queued
    ensures Settled(t)
  {
  }

  lemma AcceptedIs(controller: int, request: Request, at: int)
    ensures var t := Accepted(controller, request, at);
            t.state == Queued && t.controller == controller && t.request == request && t.createdAt == at
  {
  }

  lemma CreateRunner(s: Sys, t: Sys, id: int)
    requires RunnerInv(s) && id !in s.cells && id in t.cells && t.cells == s.cells[id := t.cells[id]] && t.cells[id].pc.Idle?
    requires t == s.(cells := t.cells, calls := t.calls, lock := t.lock, late := t.late)
    ensures RunnerInv(t)
  {
    assert Slots(t) == Slots(s);
  }

  lemma CreateKeys(s: Sys, t: Sys, id: int)
    requires KeysInv(s) && id !in s.cells && id in t.cells && t.cells == s.cells[id := t.cells[id]]
    requires !Knows(s.Tasks(), t.cells[id].task.controller, t.cells[id].task.request.id)
    ensures KeysInv(t)
  {
    forall i | i in s.cells
      ensures !HasKey(s.cells[i].task, t.cells[id].task.controller, t.cells[id].task.request.id)
    {
      assert s.Tasks()[i] == s.cells[i].task;
    }
  }

  lemma SubmitOkInv(t: Sys, call: Call)
    requires call.Submit? && call.submitPc.SubmitOk? && call.submitPc.id in t.cells
    requires t.cells[call.submitPc.id].task.controller == call.controller
    requires t.cells[call.submitPc.id].task.request == call.request
    ensures CallInv(t, call)
  {
  }

  lemma CreateCalls(s: Sys, t: Sys, c: int, id: int)
    requires CallsInv(s) && id !in s.cells && id in t.cells && t.cells == s.cells[id := t.cells[id]]
    requires c in s.calls && s.calls[c].Admitted() && !s.stop
    requires t.calls == s.calls[c := s.calls[c].(submitPc := SubmitOk(id))]
    requires t.cells[id].task.controller == s.calls[c].controller && t.cells[id].task.request == s.calls[c].request
    ensures CallsInv(t)
  {
    hide CallInv, Delivered, Forward;
    forall i | i in s.cells ensures Later(s.cells[i], t.cells[i]) {
      LaterRefl(s.cells[i]);
    }
    assert !Closed(s);
    SubmitOkInv(t, t.calls[c]);
    forall k | k in t.calls ensures CallInv(t, t.calls[k]) {
      if k != c {
        CallInvStays(s, t, s.calls[k]);
      }
    }
  }

  // --- Cancellation --------------------------------------------------------------------

  // One stretch of a cancel call: its own part of the invariant moves along.
  lemma CancelAdvances(s: Sys, who: Option<int>, id: int, pc: CancelPc)
    requires Inv(s) && s.phase.Up? && CancelInv(s, who, id, pc) && (pc.Reading? || id in s.cells) && !pc.Errored?
    ensures var m := NextCancel(s, who, id, pc);
            && (m.step.Some? ==>
                  && id in s.cells && Enabled(s.cells[id], m.step.value) && !m.step.value.Crash?
                  && (m.step.value.CancelToken? ==> !s.cells[id].task.state.Runnable())
                  && Do(s.cells[id], m.step.value).pc == s.cells[id].pc)
            && CancelInv(ApplyStep(s, id, m.step), who, id, m.next)
  {
    hide CellInv, PcInv, Delivered, Do, Inv, Enabled;
    if id in s.cells {
      IdleInactive(s, id);
      var cell := s.cells[id];
      match pc
      case Reading => TerminalDelivered(cell);
      case TryQueued => QueuedStretch(cell);
      case TryActive => ActiveStretch(cell);
      case TokenLookup => ActiveStretch(cell); TokenStretch(cell);
      case _ =>
    }
  }

  lemma IdleInactive(s: Sys, id: int)
    requires Inv(s) && s.phase.Up? && id in s.cells
    ensures CellInv(s.cells[id]) && PcInv(s.cells[id]) && (s.cells[id].pc.Idle? ==> !s.cells[id].task.state.Active())
  {
    hide CellInv, PcInv, KeysInv, CallsInv, LockInv, QueueInv, RunnerInv, StopInv, PhaseInv;
    PcInvOf(s.cells[id]);
  }

  lemma TerminalDelivered(c: Cell)
    ensures c.task.state.Terminal() ==> Delivered(c)
  {
  }

  lemma QueuedStretch(c: Cell)
    ensures Enabled(c, CancelQueued)
    ensures Do(c, CancelQueued).pc == c.pc && Do(c, CancelQueued).task.controller == c.task.controller
    ensures c.task.state == Queued ==> Delivered(Do(c, CancelQueued))
    ensures c.task.state != Queued ==> Do(c, CancelQueued).task.state != Queued
  {
  }

  lemma ActiveStretch(c: Cell)
    ensures Enabled(c, CancelActive) && Enabled(c, CancelToken)
    ensures Do(c, CancelActive).pc == c.pc && Do(c, CancelActive).task.controller == c.task.controller
    ensures c.task.state != Queued ==> !Do(c, CancelActive).task.state.Runnable()
    ensures Do(c, CancelToken).pc == c.pc && Do(c, CancelToken).task == c.task
  {
  }

  lemma TokenStretch(c: Cell)
    requires PcInv(c) && !c.task.state.Runnable() && (c.pc.Idle? ==> !c.task.state.Active())
    ensures Delivered(Do(c, CancelToken))
  {
    hide PcInv, Delivered;
    TokenDelivers(c);
  }

  lemma CancelKeeps(s: Sys, c: int, fails: bool)
    requires Inv(s) && s.phase.Up? && c in s.calls && s.calls[c].Cancel? && CancelStep(s, c, fails).Some?
    ensures Inv(CancelStep(s, c, fails).value)
  {
    hide CellsInv, KeysInv, QueueInv, RunnerInv, LockInv, StopInv, PhaseInv, Do, Enabled, CancelInv, Closed;
    var call := s.calls[c];
    var t := CancelStep(s, c, fails).value;
    assert CallInv(s, call);
    if fails {
      FailedCancel(s, t, c);
    } else {
      var m := NextCancel(s, call.who, call.id, call.cancelPc);
      CancelAdvances(s, call.who, call.id, call.cancelPc);
      ApplyKeeps(s, call.id, m.step);
      var u := ApplyStep(s, call.id, m.step);
      SameCells(u, t, call.who, call.id, m.next);
      CancelMoves(u, t, c);
    }
  }

  lemma SameCells(s: Sys, t: Sys, who: Option<int>, id: int, pc: CancelPc)
    requires CancelInv(s, who, id, pc) && t.cells == s.cells
    ensures CancelInv(t, who, id, pc)
  {
  }

  lemma FailedCancel(s: Sys, t: Sys, c: int)
    requires Inv(s) && s.phase.Up? && c in s.calls && s.calls[c].Cancel?
    requires t == Set(s, c, s.calls[c].(cancelPc := Errored))
    ensures Inv(t)
  {
    CancelMoves(s, t, c);
  }

  // A step of a canceller keeps the invariant, whatever call takes it.
  lemma ApplyKeeps(s: Sys, id: int, step: Option<Step>)
    requires Inv(s) && s.phase.Up?
    requires step.Some? ==>
               && id in s.cells && Enabled(s.cells[id], step.value) && !step.value.Crash?
               && (step.value.CancelToken? ==> !s.cells[id].task.state.Runnable())
               && Do(s.cells[id], step.value).pc == s.cells[id].pc
    ensures Inv(ApplyStep(s, id, step)) && Evolves(s, ApplyStep(s, id, step))
  {
    hide CellsInv, KeysInv, QueueInv, CallsInv, LockInv, StopInv, PhaseInv, Do, Enabled, Evolves, Slots;
    if step.Some? {
      PutKeeps(s, id, step.value);
      PutRunner(s, Put(s, id, step.value), id);
      PhaseUp(Put(s, id, step.value));
    } else {
      SameEvolves(s, s);
    }
  }

  lemma PhaseUp(s: Sys)
    requires s.phase.Up?
    ensures PhaseInv(s)
  {
  }

  lemma PutRunner(s: Sys, t: Sys, id: int)
    requires RunnerInv(s) && id in s.cells && id in t.cells && t.cells == s.cells[id := t.cells[id]]
    requires t == s.(cells := t.cells) && t.cells[id].pc == s.cells[id].pc
    ensures RunnerInv(t)
  {
    hide PlacesInv;
    SamePlaces(s, t);
  }

  // A call that holds no lock before or after moved on.
  lemma CancelMoves(s: Sys, t: Sys, c: int)
    requires Inv(s) && s.phase.Up? && c in s.calls && s.calls[c].Cancel?
    requires c in t.calls && t.calls[c].Cancel? && CallInv(t, t.calls[c]) && t == s.(calls := s.calls[c := t.calls[c]])
    ensures Inv(t)
  {
    hide CellsInv, KeysInv, QueueInv, RunnerInv, CallsInv, CancelInv;
    assert t.Tasks() == s.Tasks();
    CallMoves(s, t, c);
  }

  // --- Stop requests ------------------------------------------------------------------

  // The lock is in another call's hands, so no submission is past its check.
  lemma LockExcludes(s: Sys, c: int)
    requires LockInv(s) && c in s.calls && s.calls[c].Holds() && !s.calls[c].Admitted()
    ensures forall k | k in s.calls :: !s.calls[k].Admitted()
  {
    assert s.lock == Some(c);
    forall k | k in s.calls ensures !s.calls[k].Admitted() {
      if s.calls[k].Admitted() {
        assert s.calls[k].Holds();
      }
    }
  }

  lemma StopQuietKeeps(s: Sys, c: int, e: StopEvent)
    requires Inv(s) && s.phase.Up? && c in s.calls && s.calls[c].Stop? && StopStep(s, c, e).Some?
    requires e.StopLocks? || e.StopCloses? || e.StopSignals? || e.StopErrors?
    ensures Inv(StopStep(s, c, e).value)
  {
    hide CellsInv, KeysInv, QueueInv, RunnerInv, CallsInv, CancelInv, NothingRunnable;
    var t := StopStep(s, c, e).value;
    assert t.Tasks() == s.Tasks();
    CallInvAt(s, c);
    SameRunnable(s, t);
    if !e.StopLocks? {
      LockExcludes(s, c);
    }
    assert CallInv(t, t.calls[c]);
    CallMoves(s, t, c);
  }

  lemma SameRunnable(s: Sys, t: Sys)
    requires t.cells == s.cells
    ensures NothingRunnable(t) <==> NothingRunnable(s)
  {
  }

  // A stop call that holds the lock moved on without releasing it.
  lemma StopMoves(s: Sys, t: Sys, c: int)
    requires Inv(s) && s.phase.Up? && c in s.calls && s.calls[c].Stop? && s.calls[c].Holds()
    requires c in t.calls && t.calls[c].Stop? && t.calls[c].Holds() && CallInv(t, t.calls[c])
    requires t == s.(calls := s.calls[c := t.calls[c]])
    ensures Inv(t)
  {
    hide CellsInv, KeysInv, QueueInv, RunnerInv, CallsInv, CallInv;
    assert t.Tasks() == s.Tasks();
    CallMoves(s, t, c);
  }

  lemma StopListKeeps(s: Sys, c: int, ids: seq<int>)
    requires Inv(s) && s.phase.Up? && c in s.calls && s.calls[c].Stop? && StopStep(s, c, StopLists(ids)).Some?
    ensures Inv(StopStep(s, c, StopLists(ids)).value)
  {
    hide CellsInv, KeysInv, QueueInv, RunnerInv, LockInv;
    var t := StopStep(s, c, StopLists(ids)).value;
    CallInvAt(s, c);
    SameClosed(s, t, c);
    StopMoves(s, t, c);
  }

  lemma SameClosed(s: Sys, t: Sys, c: int)
    requires c in s.calls && s.calls[c].Stop? && c in t.calls && t.calls[c].Stop?
    requires t.calls == s.calls[c := t.calls[c]] && t.accepting == s.accepting
    ensures Closed(s) ==> Closed(t)
  {
  }

  lemma StopCancelKeeps(s: Sys, c: int)
    requires Inv(s) && s.phase.Up? && c in s.calls && s.calls[c].Stop? && StopStep(s, c, StopCancels).Some?
    ensures Inv(StopStep(s, c, StopCancels).value)
  {
    hide CellsInv, KeysInv, QueueInv, RunnerInv, LockInv, StopInv, PhaseInv, Do, Enabled, CancelInv, Closed;
    var pc := s.calls[c].stopPc;
    var t := StopStep(s, c, StopCancels).value;
    CallInvAt(s, c);
    if pc.todo == [] {
      NobodyLeft(s, s.calls[c]);
      SameClosed(s, t, c);
      SameRunnable(s, t);
      StopMoves(s, t, c);
    } else {
      var id := pc.todo[0];
      var m := NextCancel(s, None, id, pc.at);
      CancelAdvances(s, None, id, pc.at);
      ApplyKeeps(s, id, m.step);
      var u := ApplyStep(s, id, m.step);
      SameClosed(u, t, c);
      RunnableShrinks(s, u);
      StopTodo(s, u, t, c, id, m.next);
      StopMoves(u, t, c);
    }
  }

  lemma NobodyLeft(s: Sys, call: Call)
    requires CallInv(s, call) && call.Stop? && call.stopPc.StopCancelling? && call.stopPc.todo == []
    ensures NothingRunnable(s)
  {
  }

  // The list of tasks still to cancel covers every runnable task.
  lemma StopTodo(s: Sys, u: Sys, t: Sys, c: int, id: int, next: CancelPc)
    requires c in s.calls && s.calls[c].Stop? && CallInv(s, s.calls[c]) && s.calls[c].stopPc.StopCancelling?
    requires var todo := s.calls[c].stopPc.todo; todo != [] && todo[0] == id
    requires Evolves(s, u) && u.calls == s.calls && Closed(t)
    requires forall i | i in s.cells && u.cells[i].task.state.Runnable() :: s.cells[i].task.state.Runnable()
    requires CancelInv(u, None, id, next) && !next.Errored?
    requires t == Set(u, c, s.calls[c].(stopPc :=
               if next.Returned? then StopCancelling(s.calls[c].stopPc.todo[1..], Reading)
               else StopCancelling(s.calls[c].stopPc.todo, next)))
    ensures CallInv(t, t.calls[c])
  {
    hide Forward, Delivered, Later;
    var todo := s.calls[c].stopPc.todo;
    assert forall i | i in todo :: i == id || i in todo[1..];
    if next.Returned? {
      DeliveredNotRunnable(u.cells[id]);
    }
  }

  lemma DeliveredNotRunnable(c: Cell)
    requires Delivered(c)
    ensures !c.task.state.Runnable()
  {
  }

  // --- Every reachable state ------------------------------------------------------

  lemma ProcessKeeps(s: Sys, p: ProcessEvent)
    requires Inv(s) && ProcessStep(s, p).Some?
    ensures Inv(ProcessStep(s, p).value)
  {
    hide Inv, ProcessStep;
    match p
    case Crashes => CrashKeeps(s);
    case Opens(ids) => OpenKeeps(s, ids);
    case RecoversOne => RecoverOneKeeps(s);
    case RecoversRest => RecoverRestKeeps(s);
  }

  lemma StopKeeps(s: Sys, c: int, e: StopEvent)
    requires Inv(s) && s.phase.Up? && c in s.calls && s.calls[c].Stop? && StopStep(s, c, e).Some?
    ensures Inv(StopStep(s, c, e).value)
  {
    hide Inv, StopStep;
    match e
    case StopLists(ids) => StopListKeeps(s, c, ids);
    case StopCancels => StopCancelKeeps(s, c);
    case _ => StopQuietKeeps(s, c, e);
  }

  lemma NextKeeps(s: Sys, a: Action)
    requires Inv(s) && Next(s, a).Some?
    ensures Inv(Next(s, a).value)
  {
    hide Inv, ProcessStep, RunnerStep, ExecutorStepOf, SubmitStep, CancelStep, StopStep;
    match a
    case ByProcess(p) => ProcessKeeps(s, p);
    case ByRunner(r) => RunnerKeeps(s, r);
    case ByExecutor(id, step) => ExecutorKeeps(s, id, step);
    case Arrives(c, call) => ArriveKeeps(s, c, call);
    case BySubmit(c, e) =>
      if e.SubmitCreates? { CreateKeeps(s, c, e.id, e.at); } else { SubmitQuietKeeps(s, c, e); }
    case ByCancel(c, fails) => CancelKeeps(s, c, fails);
    case ByStop(c, e) => StopKeeps(s, c, e);
  }

  lemma {:induction false} RunKeeps(s: Sys, actions: seq<Action>)
    requires Inv(s) && Run(s, actions).Some?
    ensures Inv(Run(s, actions).value)
    decreases |actions|
  {
    hide Inv, Next;
    if actions != [] {
      NextKeeps(s, actions[0]);
      RunKeeps(Next(s, actions[0]).value, actions[1..]);
    }
  }

  lemma StartInv(n: nat)
    ensures Inv(Start(n))
  {
    assert Slots(Start(n)) == {};
    assert Waiting(Start(n).Tasks()) == {};
  }

  lemma ReachableInv(s: Sys)
    requires Reachable(s)
    ensures Inv(s)
  {
    hide Inv, Run;
    var n: nat, actions :| Run(Start(n), actions) == Some(s);
    StartInv(n);
    RunKeeps(Start(n), actions);
  }

  lemma ReachableCell(s: Sys, id: int)
    requires Reachable(s) && id in s.cells
    ensures CellInv(s.cells[id])
  {
    hide CellInv, KeysInv, CallsInv, LockInv, QueueInv, RunnerInv, StopInv, PhaseInv;
    ReachableInv(s);
  }

  lemma ReachableCall(s: Sys, c: int)
    requires Reachable(s) && c in s.calls
    ensures CallInv(s, s.calls[c])
  {
    hide CallInv, KeysInv, CellsInv, LockInv, QueueInv, RunnerInv, StopInv, PhaseInv;
    ReachableInv(s);
  }

  // Every step of the agent takes every task forward and loses none.
  lemma NextForward(s: Sys, a: Action)
    requires Inv(s) && Next(s, a).Some?
    ensures var t := Next(s, a).value;
            forall id | id in s.cells :: id in t.cells && Forward(s.cells[id].task, t.cells[id].task)
  {
    hide CellInv, KeysInv, CallsInv, LockInv, QueueInv, RunnerInv, StopInv, PhaseInv, Do, Enabled, Forward, Next;
    forall id | id in s.cells
      ensures id in Next(s, a).value.cells && Forward(s.cells[id].task, Next(s, a).value.cells[id].task)
    {
      var step := CellStepOf(s, a, id);
      if step.Some? {
        StepMoves(s.cells[id], step.value);
      } else {
        ForwardRefl(s.cells[id].task);
      }
    }
  }

  // What an action does to one task: one step, or nothing.
  ghost predicate Takes(c: Cell, d: Cell, step: Option<Step>) {
    if step.Some? then Enabled(c, step.value) && d == Do(c, step.value) else d == c
  }

  lemma CellStepOf(s: Sys, a: Action, id: int) returns (step: Option<Step>)
    requires Next(s, a).Some? && id in s.cells
    ensures id in Next(s, a).value.cells && Takes(s.cells[id], Next(s, a).value.cells[id], step)
    ensures step == Some(Claim) ==> a == ByRunner(Claims(id))
    ensures step == Some(Resolve) || step == Some(Interrupt) || step == Some(Crash) ==> a.ByProcess?
    ensures step == Some(Crash) ==> a == ByProcess(Crashes)
  {
    hide Do, Enabled, ProcessStep, RunnerStep, CancelStep, StopStep;
    match a
    case ByProcess(p) => step := ProcessCellStep(s, p, id);
    case ByRunner(r) => step := RunnerCellStep(s, r, id);
    case ByExecutor(i, st) => step := if i == id then Some(st) else None;
    case Arrives(c, call) => step := None;
    case BySubmit(c, e) => step := None;
    case ByCancel(c, fails) => step := CancelCellStep(s, c, fails, id);
    case ByStop(c, e) => step := StopCellStep(s, c, e, id);
  }

  lemma ProcessCellStep(s: Sys, p: ProcessEvent, id: int) returns (step: Option<Step>)
    requires ProcessStep(s, p).Some? && id in s.cells
    ensures var t := ProcessStep(s, p).value; id in t.cells && Takes(s.cells[id], t.cells[id], step)
    ensures step.Some? ==> step.value.Crash? || step.value.Interrupt? || step.value.Resolve?
    ensures step == Some(Crash) ==> p == Crashes
  {
    hide Do;
    CrashIdles(s.cells[id]);
    step := match p
      case Crashes => Some(Crash)
      case Opens(_) => None
      case RecoversOne => if s.phase.todo[0] == id then Some(Interrupt) else None
      case RecoversRest => Some(Resolve);
  }

  lemma RunnerCellStep(s: Sys, r: RunnerEvent, id: int) returns (step: Option<Step>)
    requires RunnerStep(s, r).Some? && id in s.cells
    ensures var t := RunnerStep(s, r).value; id in t.cells && Takes(s.cells[id], t.cells[id], step)
    ensures step.Some? ==> (step.value.Claim? ==> r == Claims(id))
                           && !step.value.Crash? && !step.value.Interrupt? && !step.value.Resolve?
  {
    hide Do, Enabled;
    step := match r
      case Claims(i) => if i == id then Some(Claim) else None
      case Registers => if s.runner.id == id then Some(Register) else None
      case Joins(i) => if i == id then Some(Join) else None
      case ClaimFails => if id in s.joined && Enabled(s.cells[id], Drop) then Some(Drop) else None
      case _ => None;
  }

  lemma CancelCellStep(s: Sys, c: int, fails: bool, id: int) returns (step: Option<Step>)
    requires c in s.calls && s.calls[c].Cancel? && CancelStep(s, c, fails).Some? && id in s.cells
    ensures var t := CancelStep(s, c, fails).value; id in t.cells && Takes(s.cells[id], t.cells[id], step)
    ensures step.Some? ==> step.value.CancelQueued? || step.value.CancelActive? || step.value.CancelToken?
  {
    hide Do;
    var call := s.calls[c];
    step := if fails || call.id != id then None else NextCancel(s, call.who, call.id, call.cancelPc).step;
  }

  lemma StopCellStep(s: Sys, c: int, e: StopEvent, id: int) returns (step: Option<Step>)
    requires c in s.calls && s.calls[c].Stop? && StopStep(s, c, e).Some? && id in s.cells
    ensures var t := StopStep(s, c, e).value; id in t.cells && Takes(s.cells[id], t.cells[id], step)
    ensures step.Some? ==> step.value.CancelQueued? || step.value.CancelActive? || step.value.CancelToken?
  {
    hide Do, Lists;
    step := None;
    if e.StopCancels? && s.calls[c].stopPc.todo != [] && s.calls[c].stopPc.todo[0] == id {
      step := NextCancel(s, None, id, s.calls[c].stopPc.at).step;
    }
  }
}
