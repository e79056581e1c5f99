// A controller and the agent over a network that loses, delays and repeats: the
// write-ahead history of submissions against the tasks on the agent. Either side
// may restart at any time; other controllers may use the agent as they like.
module Protocol {
  import opened Text
  import opened Tasks
  import opened Engine
  import opened AgentStore
  import opened System
  import opened Safety
  import Theorems
  import opened Controller = ControllerStore

  // What the agent once put into a response, and to what.
  datatype Answer =
    | SubmitAnswer(controller: int, request: Request, view: TaskView)
    | TaskAnswer(controller: int, id: int, view: TaskView)

  // A command of the controller, between its awaits. `submit_remote` goes from
  // Preparing to Posted; `remote_detail` and `cancel_remote` ask about a task; all
  // of them check and then write what they were told.
  datatype CommandPc =
    | Preparing(connection: int, request: Request)
    | ReadyToMark | ReadyToPost | Posted
    | Asking | Asked(id: int)
    | CheckingView(view: TaskView) | WritingView(view: TaskView)
    | Finished

  datatype Command = Command(history: int, pc: CommandPc)

  datatype World = World(
    agent: Sys,
    connections: map<int, int>,
    owner: map<int, int>,              // every controller id ever paired here, and its connection
    histories: map<int, History>,
    commands: map<int, Command>,
    posted: set<(int, Request)>,       // submissions on the wire: each may arrive never, late, or often
    answers: set<Answer>)

  datatype Happening =
    | AgentActs(a: Action)
    | AgentAnswersSubmit(c: int)
    | AgentAnswersQuery(controller: int, id: int, faulty: bool)
    | Pairs(connection: int, controller: int)
    | BeginsSubmit(k: int, connection: int, request: Request)
    | BeginsQuery(k: int, history: int)
    | Prepares(k: int, newHistory: int)
    | Finds(k: int, history: int)
    | Marks(k: int)
    | Posts(k: int)
    | Asks(k: int)
    | Receives(k: int, view: TaskView)
    | Checks(k: int)
    | Writes(k: int)
    | GivesUp(k: int)
    | Restarts

  function ViewOf(s: Sys, id: int): TaskView
    requires id in s.cells
  {
    TaskView(id, s.cells[id].task.controller, s.cells[id].task.request, s.cells[id].task.state)
  }

  // The fault on record may name this task, which is then shown as needing recovery.
  predicate Faulted(s: Sys, id: int)
    requires id in s.cells
  {
    s.fault && s.cells[id].pc == Gone(false) && !s.cells[id].task.state.Terminal()
  }

  // A submission reaches the agent only if it was sent: our controllers' requests
  // must have been posted.
  predicate Delivered(w: World, a: Action) {
    a.Arrives? && a.call.Submit? && a.call.controller in w.owner ==> (a.call.controller, a.call.request) in w.posted
  }

  // The agent gives out a controller id that nothing uses yet.
  predicate Unused(s: Sys, controller: int) {
    && (forall id | id in s.cells :: s.cells[id].task.controller != controller)
    && (forall c | c in s.calls :: s.calls[c].Submit? ==> s.calls[c].controller != controller)
  }

  predicate At(w: World, k: int) {
    k in w.commands && w.commands[k].history in w.histories
  }

  function Move(w: World, k: int, pc: CommandPc): World
    requires k in w.commands
  {
    w.(commands := w.commands[k := w.commands[k].(pc := pc)])
  }

  function Happen(w: World, h: Happening): Option<World> {
    match h
    case AgentActs(a) =>
      var s := Next(w.agent, a);
      if s.Some? && Delivered(w, a) then Some(w.(agent := s.value)) else None
    case AgentAnswersSubmit(c) =>
      if c in w.agent.calls && w.agent.calls[c].Submit? && w.agent.calls[c].submitPc.SubmitOk?
         && w.agent.calls[c].submitPc.id in w.agent.cells
      then
        var call := w.agent.calls[c];
        Some(w.(answers := w.answers + {SubmitAnswer(call.controller, call.request, ViewOf(w.agent, call.submitPc.id))}))
      else None
    case AgentAnswersQuery(controller, id, faulty) =>
      if id in w.agent.cells && w.agent.cells[id].task.controller == controller && (faulty ==> Faulted(w.agent, id))
      then
        var view := ViewOf(w.agent, id);
        Some(w.(answers := w.answers + {TaskAnswer(controller, id, if faulty then view.(state := RecoveryRequired) else view)}))
      else None
    case Pairs(connection, controller) =>
      if controller !in w.owner && Unused(w.agent, controller)
      then Some(w.(connections := w.connections[connection := controller], owner := w.owner[controller := connection])) else None
    case BeginsSubmit(k, connection, request) =>
      if k !in w.commands then Some(w.(commands := w.commands[k := Command(0, Preparing(connection, request))])) else None
    case BeginsQuery(k, history) =>
      if k !in w.commands && history in w.histories
      then Some(w.(commands := w.commands[k := Command(history, Asking)])) else None
    case Prepares(k, newHistory) =>
      if k in w.commands && w.commands[k].pc.Preparing? && newHistory !in w.histories then
        var pc := w.commands[k].pc;
        if pc.connection in w.connections
           && (forall id | id in w.histories :: !IsHistory(w.histories[id], pc.connection, pc.request.id))
        then
          Some(w.(histories := w.histories[newHistory := NewHistory(pc.connection, w.connections[pc.connection], pc.request)],
                  commands := w.commands[k := Command(newHistory, ReadyToMark)]))
        else None
      else None
    case Finds(k, history) =>
      if k in w.commands && w.commands[k].pc.Preparing? && history in w.histories then
        var pc := w.commands[k].pc;
        var h := w.histories[history];
        if IsHistory(h, pc.connection, pc.request.id) && ContentHash(h.request) == ContentHash(pc.request)
        then Some(w.(commands := w.commands[k := Command(history, if h.submission.Accepted? then Finished else ReadyToMark)]))
        else None
      else None
    case Marks(k) =>
      if At(w, k) && w.commands[k].pc.ReadyToMark? then
        var i := w.commands[k].history;
        Some(Move(w, k, ReadyToPost).(histories := w.histories[i := MarkedUnknown(w.histories[i])]))
      else None
    case Posts(k) =>
      if At(w, k) && w.commands[k].pc.ReadyToPost? then
        var h := w.histories[w.commands[k].history];
        Some(Move(w, k, Posted).(posted := w.posted + {(h.controller, h.request)}))
      else None
    case Asks(k) =>
      if At(w, k) && w.commands[k].pc.Asking? && w.histories[w.commands[k].history].remoteId.Some?
      then Some(Move(w, k, Asked(w.histories[w.commands[k].history].remoteId.value))) else None
    case Receives(k, view) =>
      if !At(w, k) then None
      else
        var h := w.histories[w.commands[k].history];
        if (w.commands[k].pc.Posted? && SubmitAnswer(h.controller, h.request, view) in w.answers)
           || (w.commands[k].pc.Asked? && TaskAnswer(h.controller, w.commands[k].pc.id, view) in w.answers)
        then Some(Move(w, k, CheckingView(view))) else None
    case Checks(k) =>
      if At(w, k) && w.commands[k].pc.CheckingView? then
        var view := w.commands[k].pc.view;
        Some(Move(w, k, if Matches(w.histories[w.commands[k].history], view) then WritingView(view) else Finished))
      else None
    case Writes(k) =>
      if At(w, k) && w.commands[k].pc.WritingView? then
        var i := w.commands[k].history;
        Some(Move(w, k, Finished).(histories := w.histories[i := Recorded(w.histories[i], w.commands[k].pc.view)]))
      else None
    case GivesUp(k) => if k in w.commands then Some(Move(w, k, Finished)) else None
    case Restarts => Some(w.(commands := map[]))
  }

  function Begin(concurrency: nat): World {
    World(Start(concurrency), map[], map[], map[], map[], {}, {})
  }

  function Play(w: World, hs: seq<Happening>): Option<World>
    decreases |hs|
  {
    if hs == [] then Some(w)
    else
      var v := Happen(w, hs[0]);
      if v.None? then None else Play(v.value, hs[1..])
  }

  // --- The invariant --------------------------------------------------------------

  ghost predicate Names(s: Sys, id: int, controller: int, request: Request) {
    id in s.cells && s.cells[id].task.controller == controller && s.cells[id].task.request == request
  }

  ghost predicate TrueView(s: Sys, v: TaskView) {
    Names(s, v.id, v.controller, v.request)
  }

  ghost predicate AnswersInv(w: World) {
    forall a | a in w.answers ::
      && TrueView(w.agent, a.view) && a.view.controller == a.controller
      && (a.SubmitAnswer? ==> a.view.request == a.request)
      && (a.TaskAnswer? ==> a.view.id == a.id)
  }

  ghost predicate HistoriesInv(w: World) {
    && (forall i | i in w.histories ::
          var h := w.histories[i];
          && h.controller in w.owner && w.owner[h.controller] == h.connection
          && (h.submission.Accepted? <==> h.remoteId.Some?)
          && (h.remoteId.Some? ==> Names(w.agent, h.remoteId.value, h.controller, h.request)))
    && (forall i, j | i in w.histories && j in w.histories
          && IsHistory(w.histories[i], w.histories[j].connection, w.histories[j].request.id) :: i == j)
    && (forall k | k in w.connections :: w.connections[k] in w.owner && w.owner[w.connections[k]] == k)
  }

  ghost predicate CommandInv(w: World, command: Command) {
    match command.pc
    case Preparing(_, _) => true
    case Finished => true
    case ReadyToPost => command.history in w.histories && !w.histories[command.history].submission.Prepared?
    case Posted => command.history in w.histories && !w.histories[command.history].submission.Prepared?
    case CheckingView(v) =>
      && command.history in w.histories && !w.histories[command.history].submission.Prepared?
      && TrueView(w.agent, v)
    case WritingView(v) =>
      && command.history in w.histories && !w.histories[command.history].submission.Prepared?
      && TrueView(w.agent, v)
      && v.controller == w.histories[command.history].controller && v.request == w.histories[command.history].request
    case Asked(_) => command.history in w.histories && !w.histories[command.history].submission.Prepared?
    case _ => command.history in w.histories
  }

  ghost predicate CommandsInv(w: World) {
    forall k | k in w.commands :: CommandInv(w, w.commands[k])
  }

  // The row was written before the request was sent.
  ghost predicate Backed(w: World, controller: int, request: Request) {
    exists i | i in w.histories ::
      w.histories[i].controller == controller && w.histories[i].request == request && !w.histories[i].submission.Prepared?
  }

  ghost predicate PostedInv(w: World) {
    && (forall p | p in w.posted :: Backed(w, p.0, p.1))
    && (forall id | id in w.agent.cells && w.agent.cells[id].task.controller in w.owner ::
          (w.agent.cells[id].task.controller, w.agent.cells[id].task.request) in w.posted)
    && (forall c | c in w.agent.calls && w.agent.calls[c].Submit? && w.agent.calls[c].controller in w.owner ::
          (w.agent.calls[c].controller, w.agent.calls[c].request) in w.posted)
  }

  ghost predicate WorldInv(w: World) {
    Reachable(w.agent) && AnswersInv(w) && HistoriesInv(w) && CommandsInv(w) && PostedInv(w)
  }

  // A history goes forward: its request and target stay, its submission does not
  // go back, and the task it names stays the same.
  ghost predicate Onward(g: History, h: History) {
    && h.connection == g.connection && h.controller == g.controller && h.request == g.request
    && (!g.submission.Prepared? ==> !h.submission.Prepared?)
    && (g.submission.Accepted? ==> h.submission.Accepted?)
    && (g.remoteId.Some? ==> h.remoteId == g.remoteId)
  }

  ghost predicate AllOnward(w: World, v: World) {
    forall i | i in w.histories :: i in v.histories && Onward(w.histories[i], v.histories[i])
  }

  // --- The agent's steps -----------------------------------------------------------

  // Where the agent's tasks and submissions come from.
  lemma Origins(s: Sys, a: Action)
    requires Inv(s) && Next(s, a).Some?
    ensures var t := Next(s, a).value;
            && (forall id | id in t.cells ::
                  Names(s, id, t.cells[id].task.controller, t.cells[id].task.request)
                  || (exists c | c in s.calls :: s.calls[c].Submit? && s.calls[c].controller == t.cells[id].task.controller
                                                 && s.calls[c].request == t.cells[id].task.request))
            && (forall c | c in t.calls && t.calls[c].Submit? ::
                  (c in s.calls && s.calls[c].Submit? && s.calls[c].controller == t.calls[c].controller
                   && s.calls[c].request == t.calls[c].request)
                  || a == Arrives(c, t.calls[c]))
  {
    hide Inv, Next, Forward;
    NextForward(s, a);
    var t := Next(s, a).value;
    forall id | id in s.cells ensures Names(s, id, t.cells[id].task.controller, t.cells[id].task.request) {
      assert Forward(s.cells[id].task, t.cells[id].task);
      ForwardKeepsKey(s.cells[id].task, t.cells[id].task);
    }
    NewCellOrigin(s, a);
    CallOrigin(s, a);
  }

  lemma ForwardKeepsKey(t: Task, u: Task)
    requires Forward(t, u)
    ensures u.controller == t.controller && u.request == t.request
  {
  }

  lemma NewCellOrigin(s: Sys, a: Action)
    requires Next(s, a).Some?
    ensures var t := Next(s, a).value;
            forall id | id in t.cells && id !in s.cells ::
              exists c | c in s.calls :: s.calls[c].Submit? && s.calls[c].controller == t.cells[id].task.controller
                                         && s.calls[c].request == t.cells[id].task.request
  {
    hide Next;
    var t := Next(s, a).value;
    if a.BySubmit? && a.submit.SubmitCreates? {
      CreatedFrom(s, a.c, a.submit);
    } else {
      Theorems.OnlySubmissionsCreate(s, a);
    }
  }

  lemma CreatedFrom(s: Sys, c: int, e: SubmitEvent)
    requires Next(s, BySubmit(c, e)).Some? && e.SubmitCreates?
    ensures var t := Next(s, BySubmit(c, e)).value;
            && c in s.calls && s.calls[c].Submit? && t.cells.Keys == s.cells.Keys + {e.id} && e.id in t.cells
            && t.cells[e.id].task.controller == s.calls[c].controller && t.cells[e.id].task.request == s.calls[c].request
  {
    AcceptedIs(s.calls[c].controller, s.calls[c].request, e.at);
  }

  // No submission of `t` is new or changed against `s`.
  ghost predicate SameSubmissions(s: Sys, t: Sys) {
    forall c | c in t.calls && t.calls[c].Submit? ::
      c in s.calls && s.calls[c].Submit? && s.calls[c].controller == t.calls[c].controller && s.calls[c].request == t.calls[c].request
  }

  lemma CallOrigin(s: Sys, a: Action)
    requires Next(s, a).Some?
    ensures var t := Next(s, a).value;
            forall c | c in t.calls && t.calls[c].Submit? ::
              (c in s.calls && s.calls[c].Submit? && s.calls[c].controller == t.calls[c].controller
               && s.calls[c].request == t.calls[c].request)
              || a == Arrives(c, t.calls[c])
  {
    hide ProcessStep, RunnerStep, SubmitStep, CancelStep, StopStep, ExecutorStepOf;
    match a
    case ByProcess(p) => ProcessSubmissions(s, p);
    case ByRunner(r) => RunnerSubmissions(s, r);
    case ByExecutor(id, step) => ExecutorSubmissions(s, id, step);
    case BySubmit(c, e) => SubmitSubmissions(s, c, e);
    case ByCancel(c, fails) => CancelSubmissions(s, c, fails);
    case ByStop(c, e) => StopSubmissions(s, c, e);
    case Arrives(_, _) =>
  }

  lemma ProcessSubmissions(s: Sys, p: ProcessEvent)
    requires ProcessStep(s, p).Some?
    ensures SameSubmissions(s, ProcessStep(s, p).value)
  {
    hide Do, Enabled;
  }

  lemma RunnerSubmissions(s: Sys, r: RunnerEvent)
    requires RunnerStep(s, r).Some?
    ensures SameSubmissions(s, RunnerStep(s, r).value)
  {
    hide Do, Enabled;
    assert RunnerStep(s, r).value.calls == s.calls;
  }

  lemma ExecutorSubmissions(s: Sys, id: int, step: Step)
    requires ExecutorStepOf(s, id, step).Some?
    ensures SameSubmissions(s, ExecutorStepOf(s, id, step).value)
  {
    hide Do, Enabled;
  }

  lemma SubmitSubmissions(s: Sys, c: int, e: SubmitEvent)
    requires c in s.calls && s.calls[c].Submit? && SubmitStep(s, c, e).Some?
    ensures SameSubmissions(s, SubmitStep(s, c, e).value)
  {
  }

  lemma CancelSubmissions(s: Sys, c: int, fails: bool)
    requires c in s.calls && s.calls[c].Cancel? && CancelStep(s, c, fails).Some?
    ensures SameSubmissions(s, CancelStep(s, c, fails).value)
  {
    hide Do, NextCancel;
  }

  lemma StopSubmissions(s: Sys, c: int, e: StopEvent)
    requires c in s.calls && s.calls[c].Stop? && StopStep(s, c, e).Some?
    ensures SameSubmissions(s, StopStep(s, c, e).value)
  {
    hide Do, NextCancel;
  }

  lemma AgentActsKeeps(w: World, a: Action)
    requires WorldInv(w) && Happen(w, AgentActs(a)).Some?
    ensures WorldInv(Happen(w, AgentActs(a)).value)
  {
    hide Reachable, Next, Inv, Delivered;
    ReachableInv(w.agent);
    Theorems.ReachNext(w.agent, a);
    var v := Happen(w, AgentActs(a)).value;
    NamesStay(w.agent, a);
    Origins(w.agent, a);
    AgentActsPosted(w, v, a);
  }

  lemma NamesStay(s: Sys, a: Action)
    requires Inv(s) && Next(s, a).Some?
    ensures forall id, controller, request | Names(s, id, controller, request) ::
              Names(Next(s, a).value, id, controller, request)
  {
    hide Inv, Next, Forward;
    NextForward(s, a);
    forall id, controller, request | Names(s, id, controller, request)
      ensures Names(Next(s, a).value, id, controller, request)
    {
      ForwardKeepsKey(s.cells[id].task, Next(s, a).value.cells[id].task);
    }
  }

  lemma AgentActsPosted(w: World, v: World, a: Action)
    requires PostedInv(w) && Inv(w.agent) && Next(w.agent, a).Some? && Delivered(w, a)
    requires v == w.(agent := Next(w.agent, a).value)
    ensures PostedInv(v)
  {
    hide Next, Inv;
    Origins(w.agent, a);
    forall p | p in v.posted ensures Backed(v, p.0, p.1) {
      assert Backed(w, p.0, p.1);
    }
  }

  // --- The steps of the controller and the network -----------------------------

  lemma AnswerKeeps(w: World, h: Happening)
    requires WorldInv(w) && Happen(w, h).Some? && (h.AgentAnswersSubmit? || h.AgentAnswersQuery?)
    ensures WorldInv(Happen(w, h).value)
  {
    hide Reachable, CommandInv;
    var v := Happen(w, h).value;
    if h.AgentAnswersSubmit? {
      SubmitAnswerTrue(w.agent, h.c);
    }
    assert AnswersInv(v);
    SameController(w, v);
  }

  lemma SubmitAnswerTrue(s: Sys, c: int)
    requires Reachable(s) && c in s.calls && s.calls[c].Submit? && s.calls[c].submitPc.SubmitOk?
    ensures Names(s, s.calls[c].submitPc.id, s.calls[c].controller, s.calls[c].request)
  {
    ReachableCall(s, c);
  }

  // Only answers, connections or commands changed.
  lemma SameController(w: World, v: World)
    requires HistoriesInv(w) && PostedInv(w) && CommandsInv(w)
    requires v == w.(answers := v.answers)
    ensures HistoriesInv(v) && PostedInv(v) && CommandsInv(v)
  {
    forall p | p in v.posted ensures Backed(v, p.0, p.1) {
      assert Backed(w, p.0, p.1);
    }
    forall k | k in v.commands ensures CommandInv(v, v.commands[k]) {
      assert CommandInv(w, w.commands[k]);
    }
  }

  lemma PairsKeeps(w: World, connection: int, controller: int)
    requires WorldInv(w) && Happen(w, Pairs(connection, controller)).Some?
    ensures WorldInv(Happen(w, Pairs(connection, controller)).value)
  {
    hide Reachable;
    var v := Happen(w, Pairs(connection, controller)).value;
    forall p | p in v.posted ensures Backed(v, p.0, p.1) {
      assert Backed(w, p.0, p.1);
    }
    forall k | k in v.commands ensures CommandInv(v, v.commands[k]) {
      assert CommandInv(w, w.commands[k]);
    }
  }

  // A command moved on; nothing else changed but what is on the wire.
  lemma CommandMoves(w: World, v: World)
    requires WorldInv(w) && v == w.(commands := v.commands)
    requires forall k | k in v.commands :: CommandInv(w, v.commands[k])
    ensures WorldInv(v)
  {
    hide Reachable;
    forall k | k in v.commands ensures CommandInv(v, v.commands[k]) {
      assert CommandInv(w, v.commands[k]);
    }
    forall p | p in v.posted ensures Backed(v, p.0, p.1) {
      assert Backed(w, p.0, p.1);
    }
  }

  lemma QuietKeeps(w: World, h: Happening)
    requires WorldInv(w) && Happen(w, h).Some?
    requires h.BeginsSubmit? || h.BeginsQuery? || h.Finds? || h.Asks? || h.Receives? || h.Checks? || h.GivesUp? || h.Restarts?
    ensures WorldInv(Happen(w, h).value)
  {
    hide Reachable, PostedInv;
    var v := Happen(w, h).value;
    forall k | k in v.commands ensures CommandInv(w, v.commands[k]) {
      if k in w.commands {
        assert CommandInv(w, w.commands[k]);
      }
    }
    CommandMoves(w, v);
  }

  lemma PostKeeps(w: World, k: int)
    requires WorldInv(w) && Happen(w, Posts(k)).Some?
    ensures WorldInv(Happen(w, Posts(k)).value)
  {
    hide Reachable;
    var v := Happen(w, Posts(k)).value;
    var h := w.histories[w.commands[k].history];
    assert CommandInv(w, w.commands[k]);
    assert Backed(w, h.controller, h.request);
    forall p | p in v.posted ensures Backed(v, p.0, p.1) {
      assert Backed(w, p.0, p.1);
    }
    forall j | j in v.commands ensures CommandInv(v, v.commands[j]) {
      assert CommandInv(w, w.commands[j]);
    }
  }

  lemma PrepareKeeps(w: World, k: int, i: int)
    requires WorldInv(w) && Happen(w, Prepares(k, i)).Some?
    ensures WorldInv(Happen(w, Prepares(k, i)).value)
  {
    hide Reachable;
    var v := Happen(w, Prepares(k, i)).value;
    forall p | p in v.posted ensures Backed(v, p.0, p.1) {
      assert Backed(w, p.0, p.1);
      var j :| j in w.histories && w.histories[j].controller == p.0 && w.histories[j].request == p.1
               && !w.histories[j].submission.Prepared?;
      assert v.histories[j] == w.histories[j];
    }
    forall j | j in v.commands ensures CommandInv(v, v.commands[j]) {
      if j != k {
        assert CommandInv(w, w.commands[j]);
      }
    }
  }

  // One row goes forward and stays sound.
  lemma HistoryMoves(w: World, v: World, i: int)
    requires WorldInv(w) && i in w.histories && i in v.histories
    requires v == w.(histories := w.histories[i := v.histories[i]], commands := v.commands)
    requires Onward(w.histories[i], v.histories[i])
    requires v.histories[i].submission.Accepted? <==> v.histories[i].remoteId.Some?
    requires v.histories[i].remoteId.Some? ==>
               Names(w.agent, v.histories[i].remoteId.value, w.histories[i].controller, w.histories[i].request)
    requires CommandsInv(v)
    ensures WorldInv(v)
  {
    hide Reachable, CommandInv;
    HistoryMovesPosted(w, v, i);
  }

  lemma HistoryMovesPosted(w: World, v: World, i: int)
    requires PostedInv(w) && i in w.histories && i in v.histories
    requires v == w.(histories := w.histories[i := v.histories[i]], commands := v.commands)
    requires Onward(w.histories[i], v.histories[i])
    ensures PostedInv(v)
  {
    forall p | p in v.posted ensures Backed(v, p.0, p.1) {
      assert Backed(w, p.0, p.1);
      var j :| j in w.histories && w.histories[j].controller == p.0 && w.histories[j].request == p.1
               && !w.histories[j].submission.Prepared?;
      assert j in v.histories && v.histories[j].controller == p.0 && v.histories[j].request == p.1
             && !v.histories[j].submission.Prepared?;
    }
  }

  lemma MarkKeeps(w: World, k: int)
    requires WorldInv(w) && Happen(w, Marks(k)).Some?
    ensures WorldInv(Happen(w, Marks(k)).value) && AllOnward(w, Happen(w, Marks(k)).value)
  {
    hide Reachable, PostedInv;
    var v := Happen(w, Marks(k)).value;
    forall j | j in v.commands ensures CommandInv(v, v.commands[j]) {
      assert CommandInv(w, w.commands[j]);
    }
    HistoryMoves(w, v, w.commands[k].history);
  }

  // The write needs no second check: whatever was recorded in between names the
  // same task, because the agent has only one for the request.
  lemma WriteKeeps(w: World, k: int)
    requires WorldInv(w) && Happen(w, Writes(k)).Some?
    ensures WorldInv(Happen(w, Writes(k)).value) && AllOnward(w, Happen(w, Writes(k)).value)
  {
    hide Reachable, PostedInv;
    var v := Happen(w, Writes(k)).value;
    var i := w.commands[k].history;
    assert CommandInv(w, w.commands[k]);
    var view := w.commands[k].pc.view;
    if w.histories[i].remoteId.Some? {
      OneTaskPerRequest(w.agent, w.histories[i].remoteId.value, view.id, w.histories[i].controller, w.histories[i].request);
    }
    forall j | j in v.commands ensures CommandInv(v, v.commands[j]) {
      assert CommandInv(w, w.commands[j]);
    }
    HistoryMoves(w, v, i);
  }

  lemma OneTaskPerRequest(s: Sys, i: int, j: int, controller: int, request: Request)
    requires Reachable(s) && Names(s, i, controller, request) && Names(s, j, controller, request)
    ensures i == j
  {
    Theorems.AtMostOnce(s);
  }

  lemma HappenKeeps(w: World, h: Happening)
    requires WorldInv(w) && Happen(w, h).Some?
    ensures WorldInv(Happen(w, h).value)
    ensures AllOnward(w, Happen(w, h).value)
  {
    hide WorldInv, Happen;
    match h
    case AgentActs(a) => AgentActsKeeps(w, a); QuietOnward(w, h);
    case AgentAnswersSubmit(_) => AnswerKeeps(w, h); QuietOnward(w, h);
    case AgentAnswersQuery(_, _, _) => AnswerKeeps(w, h); QuietOnward(w, h);
    case Pairs(connection, controller) => PairsKeeps(w, connection, controller); QuietOnward(w, h);
    case Prepares(k, i) => PrepareKeeps(w, k, i); QuietOnward(w, h);
    case Marks(k) => MarkKeeps(w, k);
    case Posts(k) => PostKeeps(w, k); QuietOnward(w, h);
    case Writes(k) => WriteKeeps(w, k);
    case _ => QuietKeeps(w, h); QuietOnward(w, h);
  }

  lemma QuietOnward(w: World, h: Happening)
    requires WorldInv(w) && Happen(w, h).Some? && !h.Marks? && !h.Writes?
    ensures AllOnward(w, Happen(w, h).value)
  {
    hide Next, WorldInv;
  }

  lemma {:induction false} PlayKeeps(w: World, hs: seq<Happening>)
    requires WorldInv(w) && Play(w, hs).Some?
    ensures WorldInv(Play(w, hs).value) && AllOnward(w, Play(w, hs).value)
    decreases |hs|
  {
    hide WorldInv, Happen;
    if hs != [] {
      HappenKeeps(w, hs[0]);
      var v := Happen(w, hs[0]).value;
      PlayKeeps(v, hs[1..]);
      OnwardTransitive(w, v, Play(v, hs[1..]).value);
    }
  }

  lemma OnwardTransitive(u: World, v: World, w: World)
    requires AllOnward(u, v) && AllOnward(v, w)
    ensures AllOnward(u, w)
  {
  }

  lemma BeginInv(n: nat)
    ensures WorldInv(Begin(n))
  {
    assert Run(Start(n), []) == Some(Start(n));
  }

  // --- End to end --------------------------------------------------------------------

  // After any run of both sides and the network, for every submission on record:
  // while it is only prepared the agent has no task for it; once it is accepted the
  // id on record names the agent's task for exactly this request of this
  // controller; and the agent has at most one such task, with the recorded request,
  // whose process was started at most once.
  lemma EndToEnd(concurrency: nat, hs: seq<Happening>, i: int)
    requires Play(Begin(concurrency), hs).Some? && i in Play(Begin(concurrency), hs).value.histories
    ensures var w := Play(Begin(concurrency), hs).value;
            var h := w.histories[i];
            && (h.submission.Prepared? ==> !Knows(w.agent.Tasks(), h.controller, h.request.id))
            && (h.submission.Accepted? <==> h.remoteId.Some?)
            && (h.remoteId.Some? ==> Names(w.agent, h.remoteId.value, h.controller, h.request))
            && (forall id | id in w.agent.cells && HasKey(w.agent.cells[id].task, h.controller, h.request.id) ::
                  && w.agent.cells[id].task.request == h.request
                  && w.agent.cells[id].spawned <= 1
                  && (h.remoteId.Some? ==> id == h.remoteId.value))
  {
    hide Reachable, Play;
    var w := Play(Begin(concurrency), hs).value;
    var h := w.histories[i];
    BeginInv(concurrency);
    PlayKeeps(Begin(concurrency), hs);
    forall id | id in w.agent.cells && HasKey(w.agent.cells[id].task, h.controller, h.request.id)
      ensures !h.submission.Prepared? && w.agent.cells[id].task.request == h.request
    {
      TaskIsBacked(w, i, id);
    }
    Theorems.AtMostOnce(w.agent);
  }

  lemma TaskIsBacked(w: World, i: int, id: int)
    requires WorldInv(w) && i in w.histories && id in w.agent.cells
    requires HasKey(w.agent.cells[id].task, w.histories[i].controller, w.histories[i].request.id)
    ensures !w.histories[i].submission.Prepared? && w.agent.cells[id].task.request == w.histories[i].request
  {
    hide Reachable;
    var t := w.agent.cells[id].task;
    assert (t.controller, t.request) in w.posted;
    assert Backed(w, t.controller, t.request);
    var j :| j in w.histories && w.histories[j].controller == t.controller && w.histories[j].request == t.request
             && !w.histories[j].submission.Prepared?;
    assert IsHistory(w.histories[i], w.histories[j].connection, w.histories[j].request.id);
    assert i == j;
  }

  // Between any two moments of a run a submission only goes forward: an accepted
  // one stays accepted, and the task it names never changes.
  lemma SubmissionsGoForward(concurrency: nat, before: seq<Happening>, after: seq<Happening>)
    requires Play(Begin(concurrency), before).Some? && Play(Play(Begin(concurrency), before).value, after).Some?
    ensures var w := Play(Begin(concurrency), before).value;
            AllOnward(w, Play(w, after).value)
  {
    hide WorldInv, Play;
    BeginInv(concurrency);
    PlayKeeps(Begin(concurrency), before);
    PlayKeeps(Play(Begin(concurrency), before).value, after);
  }
}
