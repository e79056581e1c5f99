// How a task ends against how its process did, in every reachable state.
module Endings {
  import opened Text
  import Pipe
  import opened Tasks
  import opened Engine
  import opened System
  import opened Safety
  import Theorems

  // The end of a process that has exited, by what was noticed before it did.
  ghost predicate Agrees(state: RemoteState, status: ExitStatus, noticed: seq<Notice>) {
    && (state == Succeeded <==> noticed == [] && status == Code(0))
    && (state == Failed <==> noticed == [] && status != Code(0))
    && (state == Cancelled <==> noticed == [TokenCancelled])
    && (state == TimedOut <==> noticed == [DeadlinePassed])
  }

  // The row has this end, with the code of the process and the message for it.
  ghost predicate Records(t: Task, status: ExitStatus, noticed: seq<Notice>) {
    && Agrees(t.state, status, noticed)
    && (forall n :: t.exitCode == Some(n) <==> status == Code(n))
    && Logs(t, t.state,
            match t.state
            case Succeeded => "进程正常退出"
            case Cancelled => "执行实例已取消"
            case TimedOut => "执行实例因超时结束"
            case _ => "进程以非零状态退出")
  }

  ghost predicate Logs(t: Task, state: RemoteState, note: string) {
    exists k :: 0 <= k < |t.log| && t.log[k].body == Moved(state, note)
  }

  predicate InLoop(pc: Pc) {
    pc.Watching? || pc.TimingOut? || pc.Draining?
  }

  // What the cell remembers of its process while its executor is at work.
  ghost predicate Follows(c: Cell) {
    && |c.noticed| <= 1
    && (InLoop(c.pc) ==>
          c.reason == if c.noticed == [] then None else if c.noticed == [TokenCancelled] then Some(Cancelled) else Some(TimedOut))
    && (c.spawned == 0 || c.pc.LaunchFailed? || c.pc.Launched? ==> c.exited.None? && c.noticed == [])
    && (c.pc.Watching? || c.pc.TimingOut? ==> c.exited.None?)
    && (c.pc.Draining? || c.pc.Finishing? || c.pc.Collecting? ==> c.exited.Some?)
    && (c.pc.Finishing? ==> Agrees(c.pc.final, c.exited.value, c.noticed))
  }

  // What the row of an ended task says of its process.
  ghost predicate EndIsTrue(c: Cell) {
    c.task.state.Terminal() && c.task.state != RecoveryRequired ==>
      if c.exited.Some? then Records(c.task, c.exited.value, c.noticed)
      else c.task.state == Cancelled || c.task.state == Failed
  }

  ghost predicate Faithful(c: Cell) {
    Follows(c) && EndIsTrue(c)
  }

  // --- One step of one task -----------------------------------------------------------

  lemma LoopFollows(c: Cell, s: Step)
    requires PcInv(c) && Follows(c) && Enabled(c, s)
    requires s.Launch? || s.LaunchFails? || s.RecordRunning? || s.SeeToken? || s.PassDeadline? || s.RecordTimeout? || s.Exit?
    ensures Follows(Do(c, s))
  {
    hide Transition, Pipe.Pieces, Agrees;
    assert c.noticed == [] ==> forall n :: c.noticed + [n] == [n];
  }

  lemma CloseFollows(c: Cell)
    requires Follows(c) && Enabled(c, CloseOutput)
    ensures Follows(Do(c, CloseOutput))
  {
    hide Pipe.Pieces;
    if c.noticed != [] {
      assert c.noticed == [c.noticed[0]] && (c.noticed[0].TokenCancelled? || c.noticed[0].DeadlinePassed?);
    }
    assert c.noticed == [] ==> forall n :: c.noticed + [n] == [n];
  }

  lemma ExecutorFollows(c: Cell, s: Step)
    requires PcInv(c) && Follows(c) && Enabled(c, s) && ExecutorStep(s)
    requires !s.Launch? && !s.LaunchFails? && !s.RecordRunning? && !s.SeeToken? && !s.PassDeadline? && !s.RecordTimeout?
    requires !s.Exit? && !s.CloseOutput?
    ensures Follows(Do(c, s))
  {
    hide Transition, Output, Collected, Pipe.Pieces, Agrees;
  }

  lemma OthersFollow(c: Cell, s: Step)
    requires PcInv(c) && Follows(c) && Enabled(c, s) && !ExecutorStep(s)
    ensures Follows(Do(c, s))
  {
    hide Transition, Claimed, Interrupted, Unresolved, Agrees;
  }

  lemma StepFollows(c: Cell, s: Step)
    requires PcInv(c) && Follows(c) && Enabled(c, s)
    ensures Follows(Do(c, s))
  {
    hide PcInv, Follows, Do, Enabled;
    if s.CloseOutput? {
      CloseFollows(c);
    } else if s.Launch? || s.LaunchFails? || s.RecordRunning? || s.SeeToken? || s.PassDeadline? || s.RecordTimeout? || s.Exit? {
      LoopFollows(c, s);
    } else if ExecutorStep(s) {
      ExecutorFollows(c, s);
    } else {
      OthersFollow(c, s);
    }
  }

  // The end is recorded.
  lemma FinishIsTrue(c: Cell)
    requires PcInv(c) && Follows(c) && c.pc.Finishing?
    ensures EndIsTrue(Do(c, Finish))
  {
    var d := Do(c, Finish);
    assert d.task.log[|c.task.log|].body == Moved(c.pc.final, NoteOf(c.pc.final));
    assert d.task.state == c.pc.final && d.exited == c.exited && d.noticed == c.noticed;
    hide MaxSeq, Do, Enabled;
  }

  // What a later step leaves of the row of an ended task.
  ghost predicate SameEnd(t: Task, u: Task) {
    u.state == t.state && u.exitCode == t.exitCode && t.log <= u.log
  }

  lemma SameEndIsTrue(c: Cell, d: Cell)
    requires EndIsTrue(c) && c.task.state.Terminal() && SameEnd(c.task, d.task)
    requires d.exited == c.exited && d.noticed == c.noticed
    ensures EndIsTrue(d)
  {
    var t, u := c.task, d.task;
    if c.exited.Some? && t.state != RecoveryRequired {
      var note := match t.state
        case Succeeded => "进程正常退出"
        case Cancelled => "执行实例已取消"
        case TimedOut => "执行实例因超时结束"
        case _ => "进程以非零状态退出";
      assert Logs(t, t.state, note);
      var k :| 0 <= k < |t.log| && t.log[k].body == Moved(t.state, note);
      assert u.log[k] == t.log[k];
    }
  }

  predicate WritesRow(s: Step) {
    s.Collect? || s.Resolve? || s.CancelQueued? || s.CancelActive? || s.Interrupt?
  }

  lemma AfterTheEnd(c: Cell, s: Step)
    requires PcInv(c) && c.task.state.Terminal() && c.task.state != Queued && Enabled(c, s)
    ensures WritesRow(s) || s.Join? || s.Drop? || s.Unregister? || s.Fail? || s.Panic? || s.CancelToken? || s.Crash?
  {
  }

  lemma RowStays(c: Cell, s: Step)
    requires c.task.state.Terminal() && Enabled(c, s) && WritesRow(s)
    ensures var d := Do(c, s); SameEnd(c.task, d.task) && d.exited == c.exited && d.noticed == c.noticed
  {
    NoMove(c.task, {Queued}, Cancelled, None, NOTE_DEQUEUED);
    NoMove(c.task, {Starting, Running}, Cancelling, None, NOTE_CANCELLING);
    NoMove(c.task, {Starting, Running, Cancelling}, RecoveryRequired, None, RECOVERY_NOTE);
    hide MaxSeq, Transition;
  }

  lemma NoMove(t: Task, from: set<RemoteState>, to: RemoteState, exit: Option<int>, note: string)
    requires t.state.Terminal()
    ensures Transition(t, from, to, exit, note) == t
  {
  }

  lemma EndStays(c: Cell, s: Step)
    requires PcInv(c) && c.task.state.Terminal() && Enabled(c, s)
    ensures var d := Do(c, s); SameEnd(c.task, d.task) && d.exited == c.exited && d.noticed == c.noticed
  {
    AfterTheEnd(c, s);
    hide PcInv;
    if WritesRow(s) {
      RowStays(c, s);
      hide *;
    }
  }

  lemma MoveStaysOpen(t: Task, from: set<RemoteState>, to: RemoteState, exit: Option<int>, note: string)
    requires !t.state.Terminal() && !to.Terminal()
    ensures !Transition(t, from, to, exit, note).state.Terminal()
  {
  }

  lemma StaysOpen(c: Cell, s: Step)
    requires Enabled(c, s) && !c.task.state.Terminal() && (s.Collect? ==> PcInv(c))
    requires !s.CancelEarly? && !s.RecordLaunchFailure? && !s.Finish? && !s.CancelQueued? && !s.Interrupt?
    ensures !Do(c, s).task.state.Terminal()
  {
    var t := c.task;
    hide Transition, Output, Pipe.Pieces, MaxSeq, PcInv;
    match s
    case RecordRunning => MoveStaysOpen(t, {Starting}, Running, None, NOTE_STARTED);
    case RecordTimeout => MoveStaysOpen(t, {Running, Starting}, Cancelling, None, NOTE_TIMED_OUT);
    case CancelActive => MoveStaysOpen(t, {Starting, Running}, Cancelling, None, NOTE_CANCELLING);
    case Print(stream) => OutputSameState(t, stream, FeedOf(c, stream).All()[FeedOf(c, stream).taken]);
    case _ =>
  }

  // A task ends in another way than by its process only before there is one.
  lemma EndsOtherwise(c: Cell, s: Step)
    requires PcInv(c) && (c.task.state == Queued ==> c.spawned == 0) && Follows(c) && !c.task.state.Terminal() && Enabled(c, s)
    requires s.CancelEarly? || s.RecordLaunchFailure? || s.CancelQueued? || s.Interrupt?
    ensures EndIsTrue(Do(c, s))
  {
    hide Records, Agrees, MaxSeq;
  }

  lemma QueuedUnspawned(c: Cell)
    requires CellInv(c)
    ensures PcInv(c) && (c.task.state == Queued ==> c.spawned == 0)
  {
    hide TaskInv, Kept, AllTaken, PcInv;
  }

  lemma StepIsFaithful(c: Cell, s: Step)
    requires CellInv(c) && Faithful(c) && Enabled(c, s)
    ensures Faithful(Do(c, s))
  {
    hide CellInv, PcInv, Follows, EndIsTrue, Do, Enabled;
    QueuedUnspawned(c);
    StepFollows(c, s);
    if c.task.state.Terminal() {
      EndStays(c, s);
      SameEndIsTrue(c, Do(c, s));
    } else if s.Finish? {
      Finishes(c);
      FinishIsTrue(c);
    } else if s.CancelEarly? || s.RecordLaunchFailure? || s.CancelQueued? || s.Interrupt? {
      EndsOtherwise(c, s);
    } else {
      StaysOpen(c, s);
      OpenIsTrue(Do(c, s));
    }
  }

  lemma OpenIsTrue(c: Cell)
    requires !c.task.state.Terminal()
    ensures EndIsTrue(c)
  {
  }

  lemma Finishes(c: Cell)
    requires Enabled(c, Finish)
    ensures c.pc.Finishing?
  {
  }

  // --- Every reachable state ------------------------------------------------------------

  ghost predicate AllFaithful(s: Sys) {
    forall id | id in s.cells :: Faithful(s.cells[id])
  }

  lemma NewIsFaithful(controller: int, request: Request, at: int)
    ensures Faithful(NewCell(Accepted(controller, request, at)))
  {
  }

  lemma NextIsFaithful(s: Sys, a: Action)
    requires Inv(s) && Next(s, a).Some? && AllFaithful(s)
    ensures AllFaithful(Next(s, a).value)
  {
    hide Inv, Faithful, Do, Enabled, Next;
    var t := Next(s, a).value;
    forall id | id in t.cells
      ensures Faithful(t.cells[id])
    {
      if id in s.cells {
        var step := CellStepOf(s, a, id);
        Theorems.CellOfInv(s, id);
        if step.Some? {
          StepIsFaithful(s.cells[id], step.value);
        }
      } else {
        Theorems.CreatedIs(s, a, id);
        NewIsFaithful(s.calls[a.c].controller, s.calls[a.c].request, a.submit.at);
      }
    }
  }

  lemma {:induction false} RunIsFaithful(s: Sys, actions: seq<Action>)
    requires Inv(s) && Run(s, actions).Some? && AllFaithful(s)
    ensures AllFaithful(Run(s, actions).value)
    decreases |actions|
  {
    hide Inv, Next, AllFaithful;
    if actions != [] {
      NextKeeps(s, actions[0]);
      NextIsFaithful(s, actions[0]);
      RunIsFaithful(Next(s, actions[0]).value, actions[1..]);
    }
  }

  lemma ReachableIsFaithful(s: Sys, id: int)
    requires Reachable(s) && id in s.cells
    ensures Faithful(s.cells[id])
  {
    var n: nat, actions :| Run(Start(n), actions) == Some(s);
    StartInv(n);
    hide Inv, Run, Faithful;
    assert AllFaithful(Start(n));
    RunIsFaithful(Start(n), actions);
  }

  // A task whose process has exited and whose end has been recorded: it succeeded if
  // and only if the process exited with code 0 and nothing was noticed before, failed
  // if and only if it exited otherwise and nothing was noticed, was cancelled if and
  // only if its token was noticed first, and timed out if and only if its deadline was.
  // The row has the code of the process, and the log the message that goes with it.
  lemma EndOfProcess(s: Sys, id: int)
    requires Reachable(s) && id in s.cells
    requires s.cells[id].exited.Some? && s.cells[id].task.state.Terminal() && s.cells[id].task.state != RecoveryRequired
    ensures var c, t := s.cells[id], s.cells[id].task;
            && (t.state == Succeeded <==> c.noticed == [] && c.exited == Some(Code(0)))
            && (t.state == Failed <==> c.noticed == [] && c.exited != Some(Code(0)))
            && (t.state == Cancelled <==> c.noticed == [TokenCancelled])
            && (t.state == TimedOut <==> c.noticed == [DeadlinePassed])
            && (forall n :: t.exitCode == Some(n) <==> c.exited == Some(Code(n)))
            && Logs(t, t.state,
                    match t.state
                    case Succeeded => "进程正常退出"
                    case Cancelled => "执行实例已取消"
                    case TimedOut => "执行实例因超时结束"
                    case _ => "进程以非零状态退出")
  {
    hide Reachable;
    ReachableIsFaithful(s, id);
  }

  // A task whose process never exited was cancelled before it had one, could not be
  // started, or was left to recovery.
  lemma EndWithoutProcess(s: Sys, id: int)
    requires Reachable(s) && id in s.cells && s.cells[id].exited.None? && s.cells[id].task.state.Terminal()
    ensures s.cells[id].task.state in {Cancelled, Failed, RecoveryRequired}
  {
    hide Reachable;
    ReachableIsFaithful(s, id);
  }
}
