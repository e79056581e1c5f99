// Nothing in the agent waits for ever of its own accord: whatever has begun can be
// brought to its end by its own steps alone.
module Progress {
  import opened Text
  import Pipe
  import opened Tasks
  import opened Engine
  import opened AgentStore
  import opened System
  import opened Safety
  import opened Endings
  import Theorems

  lemma Then(s: Sys, a: Action, rest: seq<Action>)
    requires Next(s, a).Some? && Run(Next(s, a).value, rest).Some?
    ensures Run(s, [a] + rest) == Run(Next(s, a).value, rest)
  {
    hide Next;
    assert ([a] + rest)[1..] == rest;
  }

  // --- An executor --------------------------------------------------------------------

  // How one wants it to go: whether the launch fails, what is noticed, how the process exits.
  datatype Course = Course(launches: bool, notice: Option<Notice>, status: ExitStatus)

  // The next step of an executor on this course.
  function Step1(c: Cell, w: Course): Step {
    match c.pc
    case Begun => Check
    case EarlyCancel => CancelEarly
    case Launching => if w.launches then Launch([], []) else LaunchFails(true)
    case LaunchFailed => RecordLaunchFailure("no such directory")
    case Launched => RecordRunning
    case Watching =>
      if c.noticed == [] && w.notice == Some(TokenCancelled) && c.token then SeeToken
      else if c.noticed == [] && w.notice == Some(DeadlinePassed) then PassDeadline
      else Exit(w.status)
    case TimingOut => RecordTimeout
    case Draining =>
      if c.out.taken < |c.out.All()| then Print(Stdout) else if c.err.taken < |c.err.All()| then Print(Stderr) else CloseOutput
    case Finishing(_) => Finish
    case Collecting => Collect(None)
    case _ => Unregister
  }

  function StepsLeft(c: Cell): nat {
    match c.pc
    case Begun => 12
    case Launching => 11
    case Launched => 10
    case Watching => if c.noticed == [] then 9 else 7
    case TimingOut => 8
    case Draining => 6
    case Finishing(_) => 5
    case Collecting => 4
    case EarlyCancel => 3
    case LaunchFailed => 3
    case Ending(_) => 2
    case _ => 1
  }

  ghost function PiecesLeft(c: Cell): nat
    requires c.out.Valid() && c.err.Valid()
  {
    |c.out.All()| - c.out.taken + |c.err.All()| - c.err.taken
  }

  lemma FeedsValid(c: Cell)
    requires CellInv(c)
    ensures c.out.Valid() && c.err.Valid()
  {
  }

  // The step can be taken, and brings the executor nearer to its end.
  lemma GoesOn(c: Cell, w: Course)
    requires PcInv(c) && Follows(c) && c.out.Valid() && c.err.Valid() && c.pc.Joinable() && !c.pc.Ended?
    ensures Enabled(c, Step1(c, w)) && ExecutorStep(Step1(c, w))
    ensures var d := Do(c, Step1(c, w));
            && d.pc.Joinable() && d.out.Valid() && d.err.Valid()
            && (StepsLeft(d) < StepsLeft(c) || (StepsLeft(d) == StepsLeft(c) && PiecesLeft(d) < PiecesLeft(c)))
  {
    if c.pc.Draining? {
      DrainGoesOn(c, w);
    } else {
      OthersGoOn(c, w);
    }
    hide *;
  }

  lemma DrainGoesOn(c: Cell, w: Course)
    requires c.pc.Draining? && c.out.Valid() && c.err.Valid()
    ensures Enabled(c, Step1(c, w)) && ExecutorStep(Step1(c, w))
    ensures var d := Do(c, Step1(c, w));
            && d.pc.Joinable() && d.out.Valid() && d.err.Valid()
            && (StepsLeft(d) < StepsLeft(c) || (StepsLeft(d) == StepsLeft(c) && PiecesLeft(d) < PiecesLeft(c)))
  {
    hide Output, Pipe.Pieces, FinalState;
  }

  lemma OthersGoOn(c: Cell, w: Course)
    requires PcInv(c) && Follows(c) && c.out.Valid() && c.err.Valid() && c.pc.Joinable() && !c.pc.Ended? && !c.pc.Draining?
    ensures Enabled(c, Step1(c, w)) && ExecutorStep(Step1(c, w))
    ensures var d := Do(c, Step1(c, w)); d.pc.Joinable() && d.out.Valid() && d.err.Valid() && StepsLeft(d) < StepsLeft(c)
  {
    hide Transition, Collected, Pipe.Pieces, Agrees;
  }

  // Still on the way to this end, or there.
  ghost predicate OnCourse(c: Cell, w: Course) {
    var target := if w.notice == None then [] else [w.notice.value];
    if c.pc.Watching? && c.noticed == [] then w.notice == Some(TokenCancelled) ==> c.token
    else
      && c.noticed == target
      && (c.pc.Draining? || c.pc.Finishing? || c.pc.Collecting? || c.pc == Ending(true) || c.pc == Ended(true) ==>
            c.exited == Some(w.status))
      && (c.pc.Collecting? || c.pc == Ending(true) || c.pc == Ended(true) ==> Agrees(c.task.state, w.status, target))
      && (c.pc.Watching? || c.pc.TimingOut? || c.pc.Draining? || c.pc.Finishing? || c.pc.Collecting?
          || c.pc == Ending(true) || c.pc == Ended(true))
  }

  lemma StaysOnCourse(c: Cell, w: Course)
    requires OnCourse(c, w) && PcInv(c) && Follows(c) && Enabled(c, Step1(c, w)) && !c.pc.Ended?
    ensures OnCourse(Do(c, Step1(c, w)), w)
  {
    if c.pc.Watching? {
      WatchingStaysOnCourse(c, w);
    } else if c.pc.Finishing? {
      assert c.task.state == Running || c.task.state == Cancelling;
      FinishingStaysOnCourse(c, w);
    } else {
      OthersStayOnCourse(c, w);
    }
    hide *;
  }

  lemma WatchingStaysOnCourse(c: Cell, w: Course)
    requires OnCourse(c, w) && Enabled(c, Step1(c, w)) && c.pc.Watching?
    ensures OnCourse(Do(c, Step1(c, w)), w)
  {
    assert c.noticed == [] ==> forall n :: c.noticed + [n] == [n];
    if w.notice.Some? {
      assert w.notice.value.TokenCancelled? || w.notice.value.DeadlinePassed?;
    }
  }

  lemma FinishingStaysOnCourse(c: Cell, w: Course)
    requires OnCourse(c, w) && Follows(c) && c.pc.Finishing? && (c.task.state == Running || c.task.state == Cancelling)
    ensures OnCourse(Do(c, Step1(c, w)), w)
  {
    hide MaxSeq;
  }

  lemma OthersStayOnCourse(c: Cell, w: Course)
    requires OnCourse(c, w) && Enabled(c, Step1(c, w)) && !c.pc.Watching? && !c.pc.Finishing? && !c.pc.Ended?
    ensures OnCourse(Do(c, Step1(c, w)), w)
  {
    hide Transition, Output, MaxSeq, Pipe.Pieces, FinalState, Agrees;
  }

  lemma EndsWell(c: Cell, w: Course)
    requires Enabled(c, Step1(c, w)) && c.pc != Ending(false) && c.pc.Joinable() && !c.pc.Ended?
    ensures var d := Do(c, Step1(c, w)); d.pc != Ending(false) && d.pc != Ended(false)
  {
    hide Transition, Output, Collected, Pipe.Pieces, FinalState, ExitCode, NoteOf, CollectNote, Feed.All;
  }

  // Every executor can bring itself to its end; unless it has failed before, without an error.
  lemma {:induction false} ExecutorCanEnd(s: Sys, id: int, w: Course) returns (actions: seq<Action>, t: Sys)
    requires Reachable(s) && s.phase.Up? && id in s.joined
    ensures Run(s, actions) == Some(t) && Reachable(t) && forall a | a in actions :: a.ByExecutor? && a.id == id
    ensures id in s.cells && id in t.cells && t.cells[id].pc.Ended? && id in t.joined && t == s.(cells := t.cells)
    ensures t.cells.Keys == s.cells.Keys && forall i | i in s.cells && i != id :: t.cells[i] == s.cells[i]
    ensures s.cells[id].pc != Ending(false) && s.cells[id].pc != Ended(false) ==> t.cells[id].pc == Ended(true)
    ensures OnCourse(s.cells[id], w) ==> OnCourse(t.cells[id], w)
    decreases (JoinedHas(s, id); StepsLeft(s.cells[id])), (JoinedValid(s, id); PiecesLeft(s.cells[id]))
  {
    JoinedValid(s, id);
    var c := s.cells[id];
    if c.pc.Ended? {
      return [], s;
    }
    var u := ExecutorGoesOn(s, id, w);
    hide Reachable, OnCourse, PcInv, Follows, Step1, Next, Run;
    var rest;
    rest, t := ExecutorCanEnd(u, id, w);
    Then(s, ByExecutor(id, Step1(c, w)), rest);
    actions := [ByExecutor(id, Step1(c, w))] + rest;
  }

  // One step of it.
  lemma ExecutorGoesOn(s: Sys, id: int, w: Course) returns (u: Sys)
    requires Reachable(s) && s.phase.Up? && id in s.joined && id in s.cells && !s.cells[id].pc.Ended?
    ensures Next(s, ByExecutor(id, Step1(s.cells[id], w))) == Some(u) && Reachable(u)
    ensures u == s.(cells := u.cells) && id in u.cells && u.cells == s.cells[id := u.cells[id]]
    ensures var c, d := s.cells[id], u.cells[id];
            && c.out.Valid() && c.err.Valid() && d.out.Valid() && d.err.Valid()
            && (StepsLeft(d) < StepsLeft(c) || (StepsLeft(d) == StepsLeft(c) && PiecesLeft(d) < PiecesLeft(c)))
            && (c.pc != Ending(false) ==> d.pc != Ending(false) && d.pc != Ended(false))
            && (OnCourse(c, w) ==> OnCourse(d, w))
  {
    JoinedValid(s, id);
    var c := s.cells[id];
    GoesOn(c, w);
    hide Reachable, Do, Enabled, OnCourse, PcInv, Follows, Step1, CellInv, Next, StepsLeft, PiecesLeft;
    if c.pc != Ending(false) {
      EndsWell(c, w);
    }
    if OnCourse(c, w) {
      StaysOnCourse(c, w);
    }
    Theorems.ExecutorMoves(s, id, Step1(c, w));
    u := Put(s, id, Step1(c, w));
  }

  lemma JoinedValid(s: Sys, id: int)
    requires Reachable(s) && s.phase.Up? && id in s.joined
    ensures id in s.cells && s.cells[id].pc.Joinable() && PcInv(s.cells[id]) && Follows(s.cells[id])
    ensures s.cells[id].out.Valid() && s.cells[id].err.Valid()
  {
    hide Reachable, CellInv, PcInv, Follows;
    JoinedHas(s, id);
    ReachableCell(s, id);
    PcInvOf(s.cells[id]);
    FeedsValid(s.cells[id]);
    ReachableIsFaithful(s, id);
  }

  lemma JoinedHas(s: Sys, id: int)
    requires Reachable(s) && id in s.joined
    ensures id in s.cells && s.cells[id].pc.Joinable()
  {
    hide CellsInv, KeysInv, CallsInv, LockInv, QueueInv, StopInv, PhaseInv, PlacesInv;
    ReachableInv(s);
  }

  // A watched process may exit in any way, and the task then ends as it did, well or
  // badly, or as what was noticed before: its deadline, or its token once that is cancelled.
  lemma EveryEndIsPossible(s: Sys, id: int, w: Course) returns (actions: seq<Action>, t: Sys)
    requires Reachable(s) && s.phase.Up? && id in s.joined && id in s.cells && s.cells[id].pc.Watching? && s.cells[id].noticed == []
    requires w.notice == Some(TokenCancelled) ==> s.cells[id].token
    ensures Run(s, actions) == Some(t) && Reachable(t) && forall a | a in actions :: a.ByExecutor? && a.id == id
    ensures t == s.(cells := t.cells) && id in t.cells && t.cells[id].pc == Ended(true)
    ensures t.cells[id].task.state == match w.notice
                                      case Some(TokenCancelled) => Cancelled
                                      case Some(DeadlinePassed) => TimedOut
                                      case None => if w.status == Code(0) then Succeeded else Failed
  {
    assert OnCourse(s.cells[id], w);
    hide Reachable;
    actions, t := ExecutorCanEnd(s, id, w);
    if w.notice.Some? {
      assert w.notice.value.TokenCancelled? || w.notice.value.DeadlinePassed?;
    }
  }

  // --- The runner -------------------------------------------------------------------

  // A runner that has not returned can go on, without a failing claim: it looks, claims
  // the first task or finds none, registers, checks, and while it waits it can be woken,
  // and can join every executor that has ended.
  lemma RunnerGoesOn(s: Sys)
    requires Reachable(s) && s.phase.Up? && !s.runner.Done? && !s.runner.Dead?
    ensures exists r :: RunnerStep(s, r).Some? && !r.ClaimFails?
    ensures s.runner.Selecting? ==>
              forall id | id in s.joined && id in s.cells && s.cells[id].pc.Ended? :: RunnerStep(s, Joins(id)).Some?
    ensures s.runner.Checking? && s.joined == {} && s.stop ==> RunnerStep(s, Checks) == Some(s.(runner := Done))
  {
    match s.runner
    case Looking => assert RunnerStep(s, Looks).Some?;
    case Claiming => ClaimGoesOn(s);
    case Registering(id) =>
      PickedIs(s, id);
      assert RunnerStep(s, Registers).Some?;
    case Checking => assert RunnerStep(s, Checks).Some?;
    case Selecting => assert RunnerStep(s, Wakes).Some?;
    case Faulting => assert RunnerStep(s, Faults).Some?;
  }

  lemma ClaimGoesOn(s: Sys)
    requires s.runner.Claiming?
    ensures exists r :: RunnerStep(s, r).Some? && !r.ClaimFails?
  {
    if Waiting(s.Tasks()) == {} {
      assert RunnerStep(s, ClaimsNothing).Some?;
    } else {
      var first := NextExists(s.Tasks(), Waiting(s.Tasks()));
      assert IsNext(s.Tasks(), first);
      assert RunnerStep(s, Claims(first)).Some?;
    }
  }

  lemma PickedIs(s: Sys, id: int)
    requires Reachable(s) && s.runner == Registering(id)
    ensures id in s.cells && s.cells[id].pc.Picked?
  {
    hide CellsInv, KeysInv, CallsInv, LockInv, QueueInv, StopInv, PhaseInv, PlacesInv;
    ReachableInv(s);
  }

  // --- A drain ------------------------------------------------------------------------

  // No executor of the runner has failed.
  ghost predicate Unharmed(s: Sys) {
    && !s.fault && !s.runner.Faulting? && !s.runner.Dead?
    && forall id | id in s.joined && id in s.cells :: s.cells[id].pc != Ending(false) && s.cells[id].pc != Ended(false)
  }

  function WorkLeft(s: Sys): nat {
    2 * |Waiting(s.Tasks())| + |s.joined| + if s.runner.Registering? then 1 else 0
  }

  function Stage(s: Sys): nat {
    match s.runner
    case Registering(_) => 6
    case Looking => 5
    case Claiming => 4
    case Checking => 3
    case Selecting => if s.joined == {} then 7 else 2
    case _ => 0
  }

  ghost predicate Nearer(s: Sys, t: Sys) {
    WorkLeft(t) < WorkLeft(s) || (WorkLeft(t) == WorkLeft(s) && Stage(t) < Stage(s))
  }

  // The next step of the runner, when it does not wait for an executor.
  lemma DrainGoesOnAlone(s: Sys) returns (r: RunnerEvent)
    requires Reachable(s) && s.phase.Up? && s.stop && Unharmed(s) && !s.runner.Done?
    requires !(s.runner.Selecting? && s.joined != {})
    ensures RunnerStep(s, r).Some?
    ensures var t := RunnerStep(s, r).value; t.phase.Up? && t.stop && Unharmed(t) && Nearer(s, t)
  {
    match s.runner
    case Looking => r := Looks;
    case Claiming =>
      if Waiting(s.Tasks()) == {} {
        r := ClaimsNothing;
      } else {
        var first := NextExists(s.Tasks(), Waiting(s.Tasks()));
        assert IsNext(s.Tasks(), first);
        r := Claims(first);
        ClaimShrinks(s, first);
      }
    case Registering(id) =>
      r := Registers;
      PickedIs(s, id);
      RegisterJoins(s, id);
    case Checking => r := Checks;
    case Selecting => r := Wakes;
  }

  lemma ClaimShrinks(s: Sys, id: int)
    requires Reachable(s) && s.phase.Up? && s.runner.Claiming? && IsNext(s.Tasks(), id) && Unharmed(s) && s.stop
    ensures RunnerStep(s, Claims(id)).Some?
    ensures var t := RunnerStep(s, Claims(id)).value; t.phase.Up? && t.stop && Unharmed(t) && Nearer(s, t)
  {
    var t := RunnerStep(s, Claims(id)).value;
    JoinedIsNotQueued(s, id);
    hide Reachable, Do, Enabled;
    ClaimTakes(s.cells[id]);
    assert t.Tasks()[id].state != Queued && id in Waiting(s.Tasks());
    assert Waiting(t.Tasks()) == Waiting(s.Tasks()) - {id} by {
      forall i ensures i in Waiting(t.Tasks()) <==> i in Waiting(s.Tasks()) - {id} {
        if i in s.cells && i != id {
          assert t.Tasks()[i] == s.Tasks()[i];
        }
      }
    }
  }

  lemma ClaimTakes(c: Cell)
    requires Enabled(c, Claim)
    ensures Do(c, Claim).task.state == Starting && Do(c, Claim).pc.Picked?
  {
  }

  lemma JoinedIsNotQueued(s: Sys, id: int)
    requires Reachable(s) && IsNext(s.Tasks(), id)
    ensures id in s.cells && Enabled(s.cells[id], Claim) && id !in s.joined
  {
    assert s.Tasks()[id] == s.cells[id].task;
    hide Reachable, Do;
    ReachableCell(s, id);
    if id in s.joined {
      JoinedHas(s, id);
    }
  }

  lemma RegisterJoins(s: Sys, id: int)
    requires s.phase.Up? && s.runner == Registering(id) && id in s.cells && s.cells[id].pc.Picked? && Unharmed(s) && s.stop
    ensures RunnerStep(s, Registers).Some?
    ensures var t := RunnerStep(s, Registers).value; t.phase.Up? && t.stop && Unharmed(t) && Nearer(s, t)
  {
    var t := RunnerStep(s, Registers).value;
    assert t.cells[id].task == s.cells[id].task && t.cells[id].pc.Begun?;
    hide Do;
    RowStaysSame(s, t, id);
    assert |t.joined| <= |s.joined| + 1;
  }

  lemma RowStaysSame(s: Sys, t: Sys, id: int)
    requires id in s.cells && t.cells.Keys == s.cells.Keys && t.cells[id].task == s.cells[id].task
    requires forall i | i in s.cells && i != id :: t.cells[i] == s.cells[i]
    ensures Waiting(t.Tasks()) == Waiting(s.Tasks())
  {
    var rows, now := s.Tasks(), t.Tasks();
    forall i: int | i in rows
      ensures i in now && now[i] == rows[i]
    {
    }
    SameMap(now, rows);
  }

  // While the runner waits, one of its executors can be brought to its end and joined.
  lemma DrainJoins(s: Sys, id: int) returns (actions: seq<Action>, t: Sys)
    requires Reachable(s) && s.phase.Up? && s.stop && Unharmed(s) && s.runner.Selecting? && id in s.joined
    ensures Run(s, actions) == Some(t) && Reachable(t) && forall a | a in actions :: a.ByExecutor? || a.ByRunner?
    ensures t.phase.Up? && t.stop && Unharmed(t) && WorkLeft(t) < WorkLeft(s)
  {
    JoinedHas(s, id);
    var u;
    actions, u := ExecutorCanEnd(s, id, Course(true, None, Code(0)));
    ExecutorsLeaveQueue(s, actions, u);
    hide Reachable, Run;
    var a := ByRunner(Joins(id));
    JoinGoesOn(u, id);
    Theorems.ReachNext(u, a);
    t := Next(u, a).value;
    Append1(s, actions, u, a);
    actions := actions + [a];
  }

  lemma JoinGoesOn(u: Sys, id: int)
    requires u.phase.Up? && u.stop && !u.fault && u.runner.Selecting? && id in u.joined && id in u.cells && u.cells[id].pc == Ended(true)
    requires forall i | i in u.joined && i in u.cells :: u.cells[i].pc != Ending(false) && u.cells[i].pc != Ended(false)
    ensures Next(u, ByRunner(Joins(id))).Some?
    ensures var t := Next(u, ByRunner(Joins(id))).value; t.phase.Up? && t.stop && Unharmed(t) && WorkLeft(t) < WorkLeft(u)
  {
    var t := RunnerStep(u, Joins(id)).value;
    assert t.cells[id].task == u.cells[id].task;
    hide Do;
    RowStaysSame(u, t, id);
    assert |u.joined - {id}| == |u.joined| - 1;
  }

  lemma {:induction false} ExecutorsLeaveQueue(s: Sys, actions: seq<Action>, t: Sys)
    requires Reachable(s) && Run(s, actions) == Some(t) && t.cells.Keys == s.cells.Keys
    ensures |Waiting(t.Tasks())| <= |Waiting(s.Tasks())|
  {
    hide Reachable, Run, Inv;
    ReachableInv(s);
    Theorems.RunForward(s, actions);
    forall id | id in s.cells && t.cells[id].task.state == Queued
      ensures s.cells[id].task.state == Queued
    {
      ForwardMeans(s.cells[id].task, t.cells[id].task);
    }
    QueueShrinks(s, t);
  }

  lemma Append1(s: Sys, actions: seq<Action>, u: Sys, a: Action)
    requires Run(s, actions) == Some(u) && Next(u, a).Some?
    ensures Run(s, actions + [a]) == Next(u, a)
  {
    Theorems.RunOnce(s, actions, a);
  }

  lemma {:induction false} ThenMore(s: Sys, first: seq<Action>, u: Sys, more: seq<Action>)
    requires Run(s, first) == Some(u) && Run(u, more).Some?
    ensures Run(s, first + more) == Run(u, more)
    decreases |first|
  {
    hide Next;
    if first == [] {
      assert first + more == more;
    } else {
      assert (first + more)[1..] == first[1..] + more;
      ThenMore(Next(s, first[0]).value, first[1..], u, more);
    }
  }

  // After a stop request, and unless something fails, the runner and its executors can
  // bring the work to an end by themselves, and the runner returns.
  lemma {:induction false} DrainCanFinish(s: Sys) returns (actions: seq<Action>, t: Sys)
    requires Reachable(s) && s.phase.Up? && s.stop && Unharmed(s)
    ensures Run(s, actions) == Some(t) && Reachable(t) && forall a | a in actions :: a.ByExecutor? || a.ByRunner?
    ensures t.phase.Up? && t.runner.Done? && !t.fault
    decreases WorkLeft(s), Stage(s)
  {
    if s.runner.Done? {
      return [], s;
    }
    hide Reachable, Run, RunnerStep, Waiting;
    var u;
    if s.runner.Selecting? && s.joined != {} {
      Inhabited(s.joined);
      var id :| id in s.joined;
      actions, u := DrainJoins(s, id);
    } else {
      var r := DrainGoesOnAlone(s);
      Theorems.ReachNext(s, ByRunner(r));
      actions, u := [ByRunner(r)], RunnerStep(s, r).value;
      RunOne(s, ByRunner(r));
    }
    var more;
    more, t := DrainCanFinish(u);
    ThenMore(s, actions, u, more);
    actions := actions + more;
  }

  lemma RunOne(s: Sys, a: Action)
    requires Next(s, a).Some?
    ensures Run(s, [a]) == Next(s, a)
  {
    assert [a][1..] == [];
  }

  // --- Calls -------------------------------------------------------------------------

  function CancelLeft(pc: CancelPc): nat {
    match pc
    case Reading => 5
    case TryQueued => 4
    case TryActive => 3
    case TokenLookup => 2
    case Rereading => 1
    case _ => 0
  }

  // A cancel call that meets no fault returns, unless the task is not there or not its
  // controller's.
  lemma {:induction false} CancelCanFinish(s: Sys, c: int) returns (actions: seq<Action>, t: Sys)
    requires Reachable(s) && s.phase.Up? && c in s.calls && s.calls[c].Cancel? && !s.calls[c].cancelPc.Errored?
    ensures Run(s, actions) == Some(t) && Reachable(t) && forall a | a in actions :: a == ByCancel(c, false)
    ensures c in t.calls && t.calls[c].Cancel? && t.calls[c].id == s.calls[c].id
    ensures t.calls[c].cancelPc == if s.calls[c].cancelPc.Reading?
                                      && (s.calls[c].id !in s.cells || (s.calls[c].who.Some?
                                          && s.cells[s.calls[c].id].task.controller != s.calls[c].who.value)) then Errored else Returned
    decreases CancelLeft(s.calls[c].cancelPc)
  {
    if s.calls[c].cancelPc.Returned? {
      return [], s;
    }
    CancelTaskIsThere(s, c);
    var a := ByCancel(c, false);
    CancelMovesOn(s, c);
    hide Reachable, Next;
    Theorems.ReachNext(s, a);
    var u := Next(s, a).value;
    if u.calls[c].cancelPc.Errored? {
      actions, t := [a], u;
      assert [a][1..] == [];
      return;
    }
    var rest;
    rest, t := CancelCanFinish(u, c);
    Then(s, a, rest);
    actions := [a] + rest;
  }

  lemma CancelTaskIsThere(s: Sys, c: int)
    requires Reachable(s) && c in s.calls && s.calls[c].Cancel?
    ensures s.calls[c].cancelPc.Reading? || s.calls[c].cancelPc.Errored? || s.calls[c].id in s.cells
  {
    hide Reachable, Delivered;
    ReachableCall(s, c);
  }

  lemma CancelMovesOn(s: Sys, c: int)
    requires s.phase.Up? && c in s.calls && s.calls[c].Cancel? && !s.calls[c].cancelPc.Errored? && !s.calls[c].cancelPc.Returned?
    requires s.calls[c].cancelPc.Reading? || s.calls[c].id in s.cells
    ensures Next(s, ByCancel(c, false)).Some?
    ensures var u := Next(s, ByCancel(c, false)).value;
            && u.phase.Up? && c in u.calls && u.calls[c] == s.calls[c].(cancelPc := u.calls[c].cancelPc)
            && CancelLeft(u.calls[c].cancelPc) < CancelLeft(s.calls[c].cancelPc)
            && (u.calls[c].cancelPc.Errored? <==>
                  s.calls[c].cancelPc.Reading?
                  && (s.calls[c].id !in s.cells || (s.calls[c].who.Some?
                      && s.cells[s.calls[c].id].task.controller != s.calls[c].who.value)))
            && !u.calls[c].cancelPc.Reading?
  {
    hide Do;
  }

  // The members of a set, one after another.
  lemma {:induction false} SetAsList(ids: set<int>) returns (list: seq<int>)
    ensures forall id :: id in list <==> id in ids
    decreases ids
  {
    if ids == {} {
      return [];
    }
    Inhabited(ids);
    var id :| id in ids;
    var rest := SetAsList(ids - {id});
    list := [id] + rest;
  }

  // --- Stop requests ------------------------------------------------------------------

  function StopStage(pc: StopPc): nat {
    match pc
    case StopLocked => 4
    case StopListing => 3
    case StopCancelling(_, _) => 2
    case StopSignalling => 1
    case _ => 0
  }

  function StopTodo(pc: StopPc): nat {
    if pc.StopCancelling? then 6 * |pc.todo| + CancelLeft(pc.at) else 0
  }

  // The next step of a stop request that holds the lock.
  lemma StopGoesOn(s: Sys, c: int) returns (e: StopEvent)
    requires Reachable(s) && s.phase.Up? && c in s.calls && s.calls[c].Stop? && s.calls[c].Holds()
    ensures Next(s, ByStop(c, e)).Some?
    ensures var u := Next(s, ByStop(c, e)).value;
            && u.phase.Up? && c in u.calls && u.calls[c].Stop? && u.calls[c].abort == s.calls[c].abort
            && (u.calls[c].Holds() || u.calls[c].stopPc.StopDone?)
            && (StopStage(u.calls[c].stopPc) < StopStage(s.calls[c].stopPc)
                || (StopStage(u.calls[c].stopPc) == StopStage(s.calls[c].stopPc)
                    && StopTodo(u.calls[c].stopPc) < StopTodo(s.calls[c].stopPc)))
  {
    hide Reachable, StopStep, StopStage, StopTodo;
    if s.calls[c].stopPc.StopCancelling? {
      e := StopCancels;
      StopTaskIsThere(s, c);
      CancellingGoesOn(s, c);
    } else if s.calls[c].stopPc.StopListing? {
      e := ListingGoesOn(s, c);
    } else {
      e := if s.calls[c].stopPc.StopLocked? then StopCloses else StopSignals;
      SimpleStopGoesOn(s, c, e);
    }
  }

  lemma SimpleStopGoesOn(s: Sys, c: int, e: StopEvent)
    requires c in s.calls && s.calls[c].Stop?
    requires (s.calls[c].stopPc.StopLocked? && e == StopCloses) || (s.calls[c].stopPc.StopSignalling? && e == StopSignals)
    ensures StopStep(s, c, e).Some?
    ensures var u := StopStep(s, c, e).value;
            && u.phase == s.phase && c in u.calls && u.calls[c].Stop? && u.calls[c].abort == s.calls[c].abort
            && (u.calls[c].Holds() || u.calls[c].stopPc.StopDone?)
            && StopStage(u.calls[c].stopPc) < StopStage(s.calls[c].stopPc)
  {
  }

  lemma ListingGoesOn(s: Sys, c: int) returns (e: StopEvent)
    requires c in s.calls && s.calls[c].Stop? && s.calls[c].stopPc.StopListing?
    ensures StopStep(s, c, e).Some?
    ensures var u := StopStep(s, c, e).value;
            && u.phase == s.phase && c in u.calls && u.calls[c].Stop? && u.calls[c].abort == s.calls[c].abort
            && u.calls[c].Holds() && StopStage(u.calls[c].stopPc) < StopStage(s.calls[c].stopPc)
  {
    var ids := SetAsList(set id | id in s.cells && !s.cells[id].task.state.Terminal());
    e := StopLists(ids);
  }

  lemma StopTaskIsThere(s: Sys, c: int)
    requires Reachable(s) && c in s.calls && s.calls[c].Stop? && s.calls[c].stopPc.StopCancelling?
    ensures (forall id | id in s.calls[c].stopPc.todo :: id in s.cells)
    ensures !s.calls[c].stopPc.at.Errored? && !s.calls[c].stopPc.at.Returned?
  {
    hide Reachable, Delivered;
    ReachableCall(s, c);
  }

  lemma CancellingGoesOn(s: Sys, c: int)
    requires s.phase.Up? && c in s.calls && s.calls[c].Stop? && s.calls[c].stopPc.StopCancelling?
    requires forall id | id in s.calls[c].stopPc.todo :: id in s.cells
    requires !s.calls[c].stopPc.at.Errored? && !s.calls[c].stopPc.at.Returned?
    ensures StopStep(s, c, StopCancels).Some?
    ensures var u := StopStep(s, c, StopCancels).value;
            && u.phase.Up? && c in u.calls && u.calls[c].Stop? && u.calls[c].abort == s.calls[c].abort
            && u.calls[c].Holds()
            && (StopStage(u.calls[c].stopPc) < StopStage(s.calls[c].stopPc)
                || (StopStage(u.calls[c].stopPc) == StopStage(s.calls[c].stopPc)
                    && StopTodo(u.calls[c].stopPc) < StopTodo(s.calls[c].stopPc)))
  {
    hide Do;
  }

  // A stop request that holds the lock, and meets no fault, succeeds.
  lemma {:induction false} StopCanFinish(s: Sys, c: int) returns (actions: seq<Action>, t: Sys)
    requires Reachable(s) && s.phase.Up? && c in s.calls && s.calls[c].Stop?
    requires s.calls[c].Holds() || s.calls[c].stopPc.StopDone?
    ensures Run(s, actions) == Some(t) && Reachable(t) && forall a | a in actions :: a.ByStop? && a.c == c
    ensures c in t.calls && t.calls[c].Stop? && t.calls[c].stopPc.StopDone? && t.calls[c].abort == s.calls[c].abort
    decreases StopStage(s.calls[c].stopPc), StopTodo(s.calls[c].stopPc)
  {
    if s.calls[c].stopPc.StopDone? {
      return [], s;
    }
    var e := StopGoesOn(s, c);
    hide Reachable, Next;
    var a := ByStop(c, e);
    Theorems.ReachNext(s, a);
    var rest;
    rest, t := StopCanFinish(Next(s, a).value, c);
    Then(s, a, rest);
    actions := [a] + rest;
  }

  // --- The process ---------------------------------------------------------------------

  lemma DownIsIdle(s: Sys)
    requires Reachable(s) && !s.phase.Up?
    ensures forall id | id in s.cells :: s.cells[id].pc.Idle?
    ensures s.phase.Recovering? ==> forall id | id in s.phase.todo :: id in s.cells
  {
    hide CellInv, KeysInv, CallsInv, LockInv, QueueInv, RunnerInv, StopInv;
    ReachableInv(s);
  }

  // Recovery, once begun, comes to its end.
  lemma {:induction false} RecoveryCanFinish(s: Sys) returns (actions: seq<Action>, t: Sys)
    requires Reachable(s) && s.phase.Recovering?
    ensures Run(s, actions) == Some(t) && Reachable(t) && t.phase.Up? && t.accepting && t.runner.Looking?
    ensures forall a | a in actions :: a == ByProcess(RecoversOne) || a == ByProcess(RecoversRest)
    decreases |s.phase.todo|
  {
    DownIsIdle(s);
    hide Reachable, Do;
    var a := ByProcess(if s.phase.todo == [] then RecoversRest else RecoversOne);
    RecoveryGoesOn(s);
    hide Next;
    Theorems.ReachNext(s, a);
    var u := Next(s, a).value;
    if u.phase.Up? {
      actions, t := [a], u;
      assert [a][1..] == [];
    } else {
      var rest;
      rest, t := RecoveryCanFinish(u);
      Then(s, a, rest);
      actions := [a] + rest;
    }
  }

  lemma RecoveryGoesOn(s: Sys)
    requires s.phase.Recovering? && forall id | id in s.cells :: s.cells[id].pc.Idle?
    requires forall id | id in s.phase.todo :: id in s.cells
    ensures Next(s, ByProcess(if s.phase.todo == [] then RecoversRest else RecoversOne)).Some?
    ensures var u := Next(s, ByProcess(if s.phase.todo == [] then RecoversRest else RecoversOne)).value;
            if s.phase.todo == [] then u.phase.Up? && u.accepting && u.runner.Looking?
            else u.phase.Recovering? && |u.phase.todo| < |s.phase.todo|
  {
    hide Do;
    if s.phase.todo == [] {
      assert s.phase == Recovering([]);
      assert forall id | id in s.cells :: Enabled(s.cells[id], Resolve);
    } else {
      var id := s.phase.todo[0];
      assert id in s.phase.todo;
      assert id in s.cells && Enabled(s.cells[id], Interrupt);
    }
  }

  // From any state, after a crash and however recovery is broken off, the agent can be
  // started again and then accepts tasks.
  lemma AgentCanStart(s: Sys) returns (actions: seq<Action>, t: Sys)
    requires Reachable(s) && s.phase.Down?
    ensures Run(s, actions) == Some(t) && Reachable(t) && t.phase.Up? && t.accepting && t.runner.Looking?
    ensures forall a | a in actions :: a.ByProcess? && !a.p.Crashes?
  {
    hide Reachable;
    var ids := SetAsList(set id | id in s.cells && s.cells[id].task.state.Active());
    var a := ByProcess(Opens(ids));
    Theorems.ReachNext(s, a);
    hide Next;
    var rest;
    assert Next(s, a).value.phase.Recovering? by { OpensRecovers(s, ids); }
    rest, t := RecoveryCanFinish(Next(s, a).value);
    Then(s, a, rest);
    actions := [a] + rest;
  }

  lemma OpensRecovers(s: Sys, ids: seq<int>)
    requires Next(s, ByProcess(Opens(ids))).Some?
    ensures Next(s, ByProcess(Opens(ids))).value.phase.Recovering?
  {
  }
}
