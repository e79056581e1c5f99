// The agent as a whole: its tasks, the runner loop, the executors, and the
// handlers of submissions, cancellations and stop requests, interleaved between
// their awaits, with crashes anywhere and recovery on the next start.
module System {
  import opened Text
  import opened Tasks
  import opened Engine
  import opened AgentStore

  // --- The state ----------------------------------------------------------------

  // `Runner::cancel`, between its store calls.
  datatype CancelPc = Reading | TryQueued | TryActive | TokenLookup | Rereading | Returned | Errored

  datatype SubmitPc = SubmitWaiting | SubmitLocked | SubmitAdmitted | SubmitOk(id: int) | SubmitRefused

  datatype StopPc =
    | StopWaiting | StopLocked | StopListing | StopCancelling(todo: seq<int>, at: CancelPc)
    | StopSignalling | StopDone | StopFailed

  datatype Call =
    | Submit(controller: int, request: Request, submitPc: SubmitPc)
    | Cancel(who: Option<int>, id: int, cancelPc: CancelPc)
    | Stop(abort: bool, stopPc: StopPc)
  {
    predicate Initial() {
      match this
      case Submit(_, _, pc) => pc == SubmitWaiting
      case Cancel(_, _, pc) => pc == Reading
      case Stop(_, pc) => pc == StopWaiting
    }

    // Between taking the admission lock and releasing it.
    predicate Holds() {
      match this
      case Submit(_, _, pc) => pc.SubmitLocked? || pc.SubmitAdmitted?
      case Cancel(_, _, _) => false
      case Stop(_, pc) => pc.StopLocked? || pc.StopListing? || pc.StopCancelling? || pc.StopSignalling?
    }

    predicate Admitted() {
      Submit? && submitPc.SubmitAdmitted?
    }
  }

  datatype RunnerPc = Looking | Claiming | Registering(id: int) | Checking | Selecting | Faulting | Done | Dead

  datatype Phase = Down | Recovering(todo: seq<int>) | Up

  datatype Sys = Sys(
    cells: map<int, Cell>,
    concurrency: nat,
    phase: Phase,
    accepting: bool,
    stop: bool,
    fault: bool,
    runner: RunnerPc,
    joined: set<int>,          // the executors in the JoinSet
    orphans: set<int>,         // tasks whose executor failed
    lock: Option<int>,         // the call that holds the admission lock
    calls: map<int, Call>,
    emptyAfterStop: bool,      // the last empty claim came after the stop signal
    late: Option<set<int>>)    // the tasks created since the last claim, if that found the queue empty
  {
    function Tasks(): map<int, Task> {
      map id | id in cells :: cells[id].task
    }
  }

  // `Runner::new` clamps the configured concurrency.
  function Clamp(n: nat): nat {
    if n < 1 then 1 else if n > 4 then 4 else n
  }

  function Start(concurrency: nat): Sys {
    Sys(map[], Clamp(concurrency), Down, false, false, false, Dead, {}, {}, None, map[], false, None)
  }

  // --- The steps -------------------------------------------------------------------

  datatype ProcessEvent = Crashes | Opens(ids: seq<int>) | RecoversOne | RecoversRest
  datatype RunnerEvent =
    | Looks | Claims(id: int) | ClaimsNothing | ClaimFails | Registers | Checks | Joins(id: int) | Wakes | Faults
  datatype SubmitEvent =
    | SubmitLocks | SubmitChecks(passes: bool) | SubmitCreates(id: int, at: int) | SubmitFinds(id: int)
    | SubmitConflicts(id: int) | SubmitFull | SubmitUnauthorized | SubmitFails
  datatype StopEvent = StopLocks | StopCloses | StopLists(ids: seq<int>) | StopCancels | StopSignals | StopErrors

  datatype Action =
    | ByProcess(p: ProcessEvent)
    | ByRunner(r: RunnerEvent)
    | ByExecutor(id: int, step: Step)
    | Arrives(c: int, call: Call)
    | BySubmit(c: int, submit: SubmitEvent)
    | ByCancel(c: int, fails: bool)
    | ByStop(c: int, st: StopEvent)

  function Put(s: Sys, id: int, step: Step): Sys
    requires id in s.cells && Enabled(s.cells[id], step)
  {
    s.(cells := s.cells[id := Do(s.cells[id], step)])
  }

  // The ids a query returns, in some order.
  predicate Lists(s: Sys, ids: seq<int>, selected: Task -> bool) {
    && (forall id | id in ids :: id in s.cells && selected(s.cells[id].task))
    && (forall id | id in s.cells && selected(s.cells[id].task) :: id in ids)
  }

  function ProcessStep(s: Sys, p: ProcessEvent): Option<Sys> {
    match p
    case Crashes =>
      Some(s.(cells := map id | id in s.cells :: Do(s.cells[id], Crash),
              phase := Down, accepting := false, stop := false, fault := false, runner := Dead,
              joined := {}, orphans := {}, lock := None, calls := map[], emptyAfterStop := false, late := None))
    case Opens(ids) =>
      if s.phase.Down? && Lists(s, ids, (t: Task) => t.state.Active())
      then Some(s.(phase := Recovering(ids))) else None
    case RecoversOne =>
      if s.phase.Recovering? && s.phase.todo != [] && s.phase.todo[0] in s.cells && Enabled(s.cells[s.phase.todo[0]], Interrupt)
      then Some(Put(s, s.phase.todo[0], Interrupt).(phase := Recovering(s.phase.todo[1..]))) else None
    case RecoversRest =>
      if s.phase == Recovering([]) && (forall id | id in s.cells :: Enabled(s.cells[id], Resolve))
      then Some(s.(cells := map id | id in s.cells :: Do(s.cells[id], Resolve),
                   phase := Up, accepting := true, stop := false, fault := false, runner := Looking,
                   joined := {}, orphans := {}, lock := None, calls := map[], emptyAfterStop := false, late := None))
      else None
  }

  function RunnerStep(s: Sys, r: RunnerEvent): Option<Sys> {
    match r
    case Looks =>
      if s.runner.Looking? then
        Some(s.(runner := if |s.joined| < s.concurrency && !s.fault then Claiming else Checking))
      else None
    case Claims(id) =>
      if s.runner.Claiming? && id in s.cells && IsNext(s.Tasks(), id) && Enabled(s.cells[id], Claim)
      then Some(Put(s, id, Claim).(runner := Registering(id), late := None)) else None
    case ClaimsNothing =>
      if s.runner.Claiming? && Waiting(s.Tasks()) == {}
      then Some(s.(runner := Checking, emptyAfterStop := s.stop, late := Some({}))) else None
    case ClaimFails =>
      if s.runner.Claiming? then
        Some(s.(cells := map id | id in s.cells ::
                  if id in s.joined && Enabled(s.cells[id], Drop) then Do(s.cells[id], Drop) else s.cells[id],
                runner := Dead, orphans := s.orphans + s.joined, joined := {}))
      else None
    case Registers =>
      if s.runner.Registering? && s.runner.id in s.cells && Enabled(s.cells[s.runner.id], Register)
      then Some(Put(s, s.runner.id, Register).(runner := Looking, joined := s.joined + {s.runner.id})) else None
    case Checks =>
      if s.runner.Checking? then Some(s.(runner := if s.joined == {} && s.stop then Done else Selecting)) else None
    case Joins(id) =>
      if s.runner.Selecting? && id in s.joined && id in s.cells && Enabled(s.cells[id], Join) then
        var t := Put(s, id, Join).(joined := s.joined - {id});
        Some(if s.cells[id].pc.ok then t.(runner := Looking)
             else t.(runner := Faulting, accepting := false, orphans := s.orphans + {id}))
      else None
    case Wakes => if s.runner.Selecting? then Some(s.(runner := Looking)) else None
    case Faults => if s.runner.Faulting? then Some(s.(runner := Looking, fault := true)) else None
  }

  function ExecutorStepOf(s: Sys, id: int, step: Step): Option<Sys> {
    if id in s.joined && id in s.cells && ExecutorStep(step) && Enabled(s.cells[id], step)
    then Some(Put(s, id, step)) else None
  }

  function Set(s: Sys, c: int, call: Call): Sys {
    s.(calls := s.calls[c := call])
  }

  function SubmitStep(s: Sys, c: int, e: SubmitEvent): Option<Sys>
    requires c in s.calls && s.calls[c].Submit?
  {
    var call := s.calls[c];
    var pc := call.submitPc;
    match e
    case SubmitLocks =>
      if pc.SubmitWaiting? && s.lock.None? then Some(Set(s, c, call.(submitPc := SubmitLocked)).(lock := Some(c))) else None
    case SubmitChecks(passes) =>
      if !pc.SubmitLocked? then None
      else if s.accepting && passes then Some(Set(s, c, call.(submitPc := SubmitAdmitted)))
      else Some(Set(s, c, call.(submitPc := SubmitRefused)).(lock := None))
    case SubmitCreates(id, at) =>
      if pc.SubmitAdmitted? && id !in s.cells && !Knows(s.Tasks(), call.controller, call.request.id)
         && |Waiting(s.Tasks())| < MAX_WAITING
      then Some(Set(s, c, call.(submitPc := SubmitOk(id)))
                .(cells := s.cells[id := NewCell(Accepted(call.controller, call.request, at))], lock := None,
                  late := if s.late.Some? then Some(s.late.value + {id}) else None))
      else None
    case SubmitFinds(id) =>
      if pc.SubmitAdmitted? && id in s.cells && HasKey(s.cells[id].task, call.controller, call.request.id)
         && ContentHash(s.cells[id].task.request) == ContentHash(call.request)
      then Some(Set(s, c, call.(submitPc := SubmitOk(id))).(lock := None))
      else None
    case SubmitConflicts(id) =>
      if pc.SubmitAdmitted? && id in s.cells && HasKey(s.cells[id].task, call.controller, call.request.id)
         && ContentHash(s.cells[id].task.request) != ContentHash(call.request)
      then Some(Set(s, c, call.(submitPc := SubmitRefused)).(lock := None))
      else None
    case SubmitFull =>
      if pc.SubmitAdmitted? && !Knows(s.Tasks(), call.controller, call.request.id) && |Waiting(s.Tasks())| >= MAX_WAITING
      then Some(Set(s, c, call.(submitPc := SubmitRefused)).(lock := None))
      else None
    // the controller has been revoked, or the store fails
    case _ =>
      if pc.SubmitAdmitted? then Some(Set(s, c, call.(submitPc := SubmitRefused)).(lock := None)) else None
  }

  // One stretch of `Runner::cancel` on a task: the store or token step it takes and
  // where it goes next.
  datatype CancelMove = CancelMove(step: Option<Step>, next: CancelPc)

  function NextCancel(s: Sys, who: Option<int>, id: int, pc: CancelPc): CancelMove
    requires pc.Reading? || id in s.cells
  {
    match pc
    case Reading =>
      if id !in s.cells || (who.Some? && s.cells[id].task.controller != who.value) then CancelMove(None, Errored)
      else CancelMove(None, if s.cells[id].task.state.Terminal() then Returned else TryQueued)
    case TryQueued => CancelMove(Some(CancelQueued), if s.cells[id].task.state == Queued then Rereading else TryActive)
    case TryActive => CancelMove(Some(CancelActive), TokenLookup)
    case TokenLookup => CancelMove(Some(CancelToken), Rereading)
    case Rereading => CancelMove(None, Returned)
    case _ => CancelMove(None, pc)
  }

  function ApplyStep(s: Sys, id: int, step: Option<Step>): Sys
    requires step.Some? ==> id in s.cells && Enabled(s.cells[id], step.value)
  {
    if step.Some? then Put(s, id, step.value) else s
  }

  function CancelStep(s: Sys, c: int, fails: bool): Option<Sys>
    requires c in s.calls && s.calls[c].Cancel?
  {
    var call := s.calls[c];
    if call.cancelPc.Returned? || call.cancelPc.Errored? then None
    else if fails then Some(Set(s, c, call.(cancelPc := Errored)))
    else if !call.cancelPc.Reading? && call.id !in s.cells then None
    else
      var m := NextCancel(s, call.who, call.id, call.cancelPc);
      Some(Set(ApplyStep(s, call.id, m.step), c, call.(cancelPc := m.next)))
  }

  function StopStep(s: Sys, c: int, e: StopEvent): Option<Sys>
    requires c in s.calls && s.calls[c].Stop?
  {
    var call := s.calls[c];
    var pc := call.stopPc;
    match e
    case StopLocks =>
      if pc.StopWaiting? && s.lock.None? then Some(Set(s, c, call.(stopPc := StopLocked)).(lock := Some(c))) else None
    case StopCloses =>
      if pc.StopLocked?
      then Some(Set(s, c, call.(stopPc := if call.abort then StopListing else StopSignalling)).(accepting := false))
      else None
    case StopLists(ids) =>
      if pc.StopListing? && Lists(s, ids, (t: Task) => !t.state.Terminal())
      then Some(Set(s, c, call.(stopPc := StopCancelling(ids, Reading)))) else None
    case StopCancels =>
      if !pc.StopCancelling? then None
      else if pc.todo == [] then Some(Set(s, c, call.(stopPc := StopSignalling)))
      else if pc.todo[0] !in s.cells then None
      else
        var m := NextCancel(s, None, pc.todo[0], pc.at);
        if m.next.Errored? then None
        else
          Some(Set(ApplyStep(s, pc.todo[0], m.step), c, call.(stopPc :=
            if m.next.Returned? then StopCancelling(pc.todo[1..], Reading) else StopCancelling(pc.todo, m.next))))
    case StopSignals =>
      if pc.StopSignalling? then Some(Set(s, c, call.(stopPc := StopDone)).(stop := true, lock := None)) else None
    case StopErrors =>
      if pc.StopListing? || pc.StopCancelling? then Some(Set(s, c, call.(stopPc := StopFailed)).(lock := None)) else None
  }

  // The state after an event, or None when the event cannot happen now.
  function Next(s: Sys, e: Action): Option<Sys> {
    match e
    case ByProcess(p) => ProcessStep(s, p)
    case ByRunner(r) => if s.phase.Up? then RunnerStep(s, r) else None
    case ByExecutor(id, step) => if s.phase.Up? then ExecutorStepOf(s, id, step) else None
    case Arrives(c, call) => if s.phase.Up? && c !in s.calls && call.Initial() then Some(Set(s, c, call)) else None
    case BySubmit(c, submit) =>
      if s.phase.Up? && c in s.calls && s.calls[c].Submit? then SubmitStep(s, c, submit) else None
    case ByCancel(c, fails) =>
      if s.phase.Up? && c in s.calls && s.calls[c].Cancel? then CancelStep(s, c, fails) else None
    case ByStop(c, st) =>
      if s.phase.Up? && c in s.calls && s.calls[c].Stop? then StopStep(s, c, st) else None
  }

  function Run(s: Sys, actions: seq<Action>): Option<Sys>
    decreases |actions|
  {
    if actions == [] then Some(s)
    else
      var t := Next(s, actions[0]);
      if t.None? then None else Run(t.value, actions[1..])
  }

  // Some run of the agent from an empty store ends in `s`.
  ghost predicate Reachable(s: Sys) {
    exists n: nat, actions: seq<Action> :: Run(Start(n), actions) == Some(s)
  }
}
