// What a controller is told about a task, and what it keeps of it.
module Views {
  import opened Text
  import opened Tasks
  import opened Engine
  import opened AgentStore
  import opened System
  import opened Safety
  import Theorems
  import opened Controller = ControllerStore
  import opened Protocol

  // An answer about a task says what its row says, except that a task whose executor
  // has failed may be shown as needing recovery before it has its end.
  lemma AnswersTheRow(w: World, h: Happening)
    requires Happen(w, h).Some?
    ensures h.AgentAnswersQuery? ==>
              && h.id in w.agent.cells && w.agent.cells[h.id].task.controller == h.controller
              && var c := w.agent.cells[h.id];
                 && (h.faulty ==> w.agent.fault && c.pc == Gone(false) && !c.task.state.Terminal())
                 && Happen(w, h).value.answers
                    == w.answers + {TaskAnswer(h.controller, h.id,
                                               TaskView(h.id, c.task.controller, c.task.request,
                                                        if h.faulty then RecoveryRequired else c.task.state))}
    ensures h.AgentAnswersSubmit? ==>
              && h.c in w.agent.calls && w.agent.calls[h.c].Submit? && w.agent.calls[h.c].submitPc.SubmitOk?
              && w.agent.calls[h.c].submitPc.id in w.agent.cells
              && var call := w.agent.calls[h.c];
                 var t := w.agent.cells[call.submitPc.id].task;
                 Happen(w, h).value.answers
                 == w.answers + {SubmitAnswer(call.controller, call.request, TaskView(call.submitPc.id, t.controller, t.request, t.state))}
    ensures !h.AgentAnswersQuery? && !h.AgentAnswersSubmit? ==> Happen(w, h).value.answers == w.answers
  {
    hide Next;
  }

  // --- What was once true ----------------------------------------------------------------

  ghost predicate Was(log: seq<Event>, state: RemoteState) {
    exists k :: 0 <= k < |log| && log[k].body.Moved? && log[k].body.to == state
  }

  // Nothing is left for the task but recovery on the next start.
  ghost predicate Fated(s: Sys, id: int)
    requires id in s.cells
  {
    s.cells[id].task.state.Active() && (s.cells[id].pc == Gone(false) || !s.phase.Up?)
  }

  // The view names a task, its owner and its request, and a state the task has been in,
  // or will be in after the next start.
  ghost predicate Told(s: Sys, v: TaskView) {
    && v.id in s.cells
    && var t := s.cells[v.id].task;
       && t.controller == v.controller && t.request == v.request
       && (Was(t.log, v.state) || (v.state == RecoveryRequired && Fated(s, v.id)))
  }

  lemma {:induction false} ReplayWas(wants: bool, log: seq<Event>)
    requires log != [] && log[0].body.Moved? && log[0].body.to == Queued
    ensures Was(log, Replay(wants, log).state)
  {
    var n := |log| - 1;
    if n > 0 {
      ReplayWas(wants, log[..n]);
      var k :| 0 <= k < n && log[..n][k].body.Moved? && log[..n][k].body.to == Replay(wants, log[..n]).state;
      assert log[k] == log[..n][k];
    } else {
      assert log[..0] == [];
    }
    if log[n].body.Moved? {
      assert Replay(wants, log).state == log[n].body.to;
    }
  }

  // A row is in a state its log records.
  lemma RowWas(t: Task)
    requires TaskInv(t)
    ensures Was(t.log, t.state)
  {
    FirstEvent(t);
    ReplayWas(t.WantsResults(), t.log);
  }

  lemma WasStays(t: Task, u: Task, state: RemoteState)
    requires t.log <= u.log && Was(t.log, state)
    ensures Was(u.log, state)
  {
    var k :| 0 <= k < |t.log| && t.log[k].body.Moved? && t.log[k].body.to == state;
    assert u.log[k] == t.log[k];
  }

  // What becomes of a task whose executor has failed, or that a crash has left active.
  lemma FatedStep(c: Cell, step: Step)
    requires PcInv(c) && Enabled(c, step) && c.task.state.Active() && (c.pc == Gone(false) || c.pc.Idle?)
    ensures var d := Do(c, step);
            if step.Interrupt? then Was(d.task.log, RecoveryRequired)
            else d.task.state.Active() && (d.pc == c.pc || step.Crash?) && (step.Crash? ==> d.pc.Idle?)
  {
    assert !c.task.state.Terminal();
    if step.Interrupt? {
      var d := Do(c, step);
      assert d.task.log[|c.task.log|].body == Moved(RecoveryRequired, RECOVERY_NOTE);
    }
    hide MaxSeq, Output;
  }

  lemma ToldStays(s: Sys, a: Action, v: TaskView)
    requires Inv(s) && Next(s, a).Some? && Told(s, v)
    ensures Told(Next(s, a).value, v)
  {
    hide Inv, Next, Was, Fated;
    NextForward(s, a);
    var t, u := s.cells[v.id].task, Next(s, a).value.cells[v.id].task;
    assert Forward(t, u);
    if Was(t.log, v.state) {
      WasStays(t, u, v.state);
    } else {
      FatedStays(s, a, v.id);
    }
  }

  lemma FatedStays(s: Sys, a: Action, id: int)
    requires Inv(s) && Next(s, a).Some? && id in s.cells && Fated(s, id)
    ensures var t := Next(s, a).value;
            id in t.cells && (Fated(t, id) || Was(t.cells[id].task.log, RecoveryRequired))
  {
    hide Inv, Do, Enabled, Next, Was;
    var step := CellStepOf(s, a, id);
    FatedPc(s, id);
    PhaseMoves(s, a, id);
    if step.Some? {
      FatedStep(s.cells[id], step.value);
    }
  }

  lemma FatedPc(s: Sys, id: int)
    requires Inv(s) && id in s.cells && Fated(s, id)
    ensures PcInv(s.cells[id]) && (s.cells[id].pc == Gone(false) || s.cells[id].pc.Idle?)
    ensures s.cells[id].pc.Idle? ==> !s.phase.Up?
  {
    hide CellInv, PcInv, KeysInv, CallsInv, LockInv, QueueInv, RunnerInv, StopInv, PhaseInv;
    PcInvOf(s.cells[id]);
  }

  // The agent comes up only after recovery has dealt with every active task, and goes
  // down only in a crash.
  lemma PhaseMoves(s: Sys, a: Action, id: int)
    requires Inv(s) && Next(s, a).Some? && id in s.cells && s.cells[id].task.state.Active()
    ensures !s.phase.Up? ==> !Next(s, a).value.phase.Up?
    ensures a == ByProcess(Crashes) ==> !Next(s, a).value.phase.Up?
  {
    hide CellsInv, KeysInv, CallsInv, LockInv, QueueInv, RunnerInv, StopInv, Do, Enabled;
  }

  // Every view on the wire, in a command, or on record was once true, and a view on
  // record is of the task the row names.
  ghost predicate ViewsInv(w: World) {
    && (forall a | a in w.answers :: Told(w.agent, a.view))
    && (forall k | k in w.commands && (w.commands[k].pc.CheckingView? || w.commands[k].pc.WritingView?) ::
          Told(w.agent, w.commands[k].pc.view))
    && (forall i | i in w.histories && w.histories[i].lastTask.Some? ::
          Told(w.agent, w.histories[i].lastTask.value) && w.histories[i].remoteId == Some(w.histories[i].lastTask.value.id))
  }

  lemma AgentReachable(w: World)
    requires WorldInv(w)
    ensures Reachable(w.agent)
  {
    hide Reachable;
  }

  lemma AgentActsTells(w: World, a: Action)
    requires WorldInv(w) && ViewsInv(w) && Happen(w, AgentActs(a)).Some?
    ensures ViewsInv(Happen(w, AgentActs(a)).value)
  {
    hide Inv, Reachable, Next, Told, WorldInv;
    AgentReachable(w);
    ReachableInv(w.agent);
    forall v | Told(w.agent, v)
      ensures Told(Next(w.agent, a).value, v)
    {
      ToldStays(w.agent, a, v);
    }
  }

  lemma RowIsTold(s: Sys, id: int)
    requires Reachable(s) && id in s.cells
    ensures Told(s, TaskView(id, s.cells[id].task.controller, s.cells[id].task.request, s.cells[id].task.state))
  {
    hide Reachable, Was;
    ReachableCell(s, id);
    RowWas(s.cells[id].task);
  }

  lemma FaultIsTold(s: Sys, id: int)
    requires Reachable(s) && id in s.cells && s.cells[id].pc == Gone(false) && !s.cells[id].task.state.Terminal()
    ensures Told(s, TaskView(id, s.cells[id].task.controller, s.cells[id].task.request, RecoveryRequired))
  {
    hide Reachable, Was, TaskInv, Kept, AllTaken;
    ReachableCell(s, id);
  }

  lemma AnswerTells(w: World, h: Happening)
    requires WorldInv(w) && ViewsInv(w) && Happen(w, h).Some? && (h.AgentAnswersSubmit? || h.AgentAnswersQuery?)
    ensures ViewsInv(Happen(w, h).value)
  {
    hide Reachable, Told, WorldInv;
    AgentReachable(w);
    AnswersTheRow(w, h);
    var id := if h.AgentAnswersQuery? then h.id else w.agent.calls[h.c].submitPc.id;
    RowIsTold(w.agent, id);
    if h.AgentAnswersQuery? && h.faulty {
      FaultIsTold(w.agent, id);
    }
  }

  lemma OthersTell(w: World, h: Happening)
    requires ViewsInv(w) && Happen(w, h).Some? && !h.AgentActs? && !h.AgentAnswersSubmit? && !h.AgentAnswersQuery?
    ensures ViewsInv(Happen(w, h).value)
  {
    hide Told, Next;
  }

  lemma HappenTells(w: World, h: Happening)
    requires WorldInv(w) && ViewsInv(w) && Happen(w, h).Some?
    ensures ViewsInv(Happen(w, h).value)
  {
    hide WorldInv, ViewsInv, Happen;
    match h
    case AgentActs(a) => AgentActsTells(w, a);
    case AgentAnswersSubmit(_) => AnswerTells(w, h);
    case AgentAnswersQuery(_, _, _) => AnswerTells(w, h);
    case _ => OthersTell(w, h);
  }

  lemma {:induction false} PlayTells(w: World, hs: seq<Happening>)
    requires WorldInv(w) && ViewsInv(w) && Play(w, hs).Some?
    ensures ViewsInv(Play(w, hs).value)
    decreases |hs|
  {
    hide WorldInv, ViewsInv, Happen;
    if hs != [] {
      HappenKeeps(w, hs[0]);
      HappenTells(w, hs[0]);
      PlayTells(Happen(w, hs[0]).value, hs[1..]);
    }
  }

  // Over any run of both sides: the view a controller keeps of a task names the task of
  // its accepted submission, with its request, in a state that task has been in; or it
  // says that recovery is needed, and then the task is still active, its executor has
  // failed or the agent is not up, and only recovery will end it.
  lemma RecordedViewWasTrue(concurrency: nat, hs: seq<Happening>, i: int)
    requires Play(Begin(concurrency), hs).Some? && i in Play(Begin(concurrency), hs).value.histories
    ensures var w := Play(Begin(concurrency), hs).value;
            var h := w.histories[i];
            h.lastTask.Some? ==>
              var v := h.lastTask.value;
              && h.remoteId == Some(v.id) && v.controller == h.controller && v.request == h.request
              && v.id in w.agent.cells
              && var c := w.agent.cells[v.id];
                 || (exists k :: 0 <= k < |c.task.log| && c.task.log[k].body.Moved? && c.task.log[k].body.to == v.state)
                 || (v.state == RecoveryRequired && c.task.state.Active() && (c.pc == Gone(false) || !w.agent.phase.Up?))
  {
    BeginInv(concurrency);
    assert ViewsInv(Begin(concurrency));
    hide Play;
    PlayTells(Begin(concurrency), hs);
    PlayKeeps(Begin(concurrency), hs);
    hide Reachable;
  }
}
