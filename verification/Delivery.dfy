// A run of both sides in which an answer is lost and the submission still arrives once.
module Delivery {
  import opened Text
  import opened Tasks
  import opened Engine
  import opened AgentStore
  import opened System
  import opened Controller = ControllerStore
  import opened Protocol

  ghost predicate Played(w: World) {
    exists hs :: Play(Begin(1), hs) == Some(w)
  }

  lemma {:induction false} PlayOnce(w: World, hs: seq<Happening>, h: Happening)
    requires Play(w, hs).Some? && Happen(Play(w, hs).value, h).Some?
    ensures Play(w, hs + [h]) == Happen(Play(w, hs).value, h)
    decreases |hs|
  {
    hide Happen;
    if hs == [] {
      assert hs + [h] == [h] && [h][1..] == [];
    } else {
      assert (hs + [h])[1..] == hs[1..] + [h] && (hs + [h])[0] == hs[0];
      PlayOnce(Happen(w, hs[0]).value, hs[1..], h);
    }
  }

  lemma PlayNext(w: World, h: Happening) returns (v: World)
    requires Played(w) && Happen(w, h).Some?
    ensures Played(v) && Happen(w, h) == Some(v)
  {
    hide Happen, Play;
    var hs :| Play(Begin(1), hs) == Some(w);
    PlayOnce(Begin(1), hs, h);
    v := Happen(w, h).value;
  }

  lemma PlayAgent(w: World, a: Action) returns (v: World)
    requires Played(w) && Next(w.agent, a).Some? && Protocol.Delivered(w, a)
    ensures Played(v) && v == w.(agent := Next(w.agent, a).value)
  {
    hide Next, Played;
    v := PlayNext(w, AgentActs(a));
  }

  const ASKED := Request(8, Content(false, "true"))

  const UP := Start(1).(phase := Phase.Up, accepting := true, runner := Looking)

  lemma Started() returns (w: World)
    ensures Played(w) && w == Begin(1).(agent := UP)
  {
    hide Played, Happen;
    w := Begin(1);
    assert Played(w) by { Begun(); }
    w := PlayAgent(w, ByProcess(Opens([])));
    w := PlayAgent(w, ByProcess(RecoversRest));
  }

  lemma Begun()
    ensures Played(Begin(1))
  {
    assert Play(Begin(1), []) == Some(Begin(1));
  }

  const WRITTEN := History(3, 5, ASKED, SubmissionUnknown, None, None)

  // The agent is up and the controller paired; it has posted its request.
  lemma Posted() returns (w: World)
    ensures Played(w)
    ensures w.agent == UP && w.connections == map[3 := 5] && w.owner == map[5 := 3]
    ensures w.posted == {(5, ASKED)} && w.answers == {} && w.histories == map[7 := WRITTEN]
  {
    hide Played, Next;
    w := Started();
    w := PlayNext(w, Pairs(3, 5));
    w := PlayNext(w, BeginsSubmit(1, 3, ASKED));
    w := PlayNext(w, Prepares(1, 7));
    w := PlayNext(w, Marks(1));
    w := PlayNext(w, Posts(1));
  }

  // The agent accepts it.
  lemma Admitted() returns (w: World)
    ensures Played(w)
    ensures w.agent == UP.(calls := map[1 := Submit(5, ASKED, SubmitAdmitted)], lock := Some(1))
    ensures w.connections == map[3 := 5] && w.owner == map[5 := 3]
    ensures w.posted == {(5, ASKED)} && w.answers == {} && w.histories == map[7 := WRITTEN]
  {
    hide Played, Happen;
    w := Posted();
    w := PlayAgent(w, Arrives(1, Submit(5, ASKED, SubmitWaiting)));
    w := PlayAgent(w, BySubmit(1, SubmitLocks));
    w := PlayAgent(w, BySubmit(1, SubmitChecks(true)));
  }

  // The controller restarts before it is told.
  lemma AcceptedUnheard() returns (w: World)
    ensures Played(w) && w.commands == map[]
    ensures w.agent == UP.(cells := map[9 := NewCell(Tasks.Accepted(5, ASKED, 0))], calls := map[1 := Submit(5, ASKED, SubmitOk(9))])
    ensures w.connections == map[3 := 5] && w.owner == map[5 := 3]
    ensures w.posted == {(5, ASKED)} && w.answers == {} && w.histories == map[7 := WRITTEN]
  {
    hide Played, Tasks.Accepted;
    w := Admitted();
    assert Waiting(w.agent.Tasks()) == {} && !Knows(w.agent.Tasks(), 5, 8);
    w := PlayAgent(w, BySubmit(1, SubmitCreates(9, 0)));
    hide Next;
    w := PlayNext(w, Restarts);
  }

  // It asks again.
  lemma PostedAgain() returns (w: World)
    ensures Played(w) && w.commands == map[2 := Command(7, CommandPc.Posted)]
    ensures w.agent == UP.(cells := map[9 := NewCell(Tasks.Accepted(5, ASKED, 0))], calls := map[1 := Submit(5, ASKED, SubmitOk(9))])
    ensures w.posted == {(5, ASKED)} && w.answers == {} && w.histories == map[7 := WRITTEN]
  {
    hide Played, Tasks.Accepted, Next;
    w := AcceptedUnheard();
    w := PlayNext(w, BeginsSubmit(2, 3, ASKED));
    w := PlayNext(w, Finds(2, 7));
    w := PlayNext(w, Marks(2));
    w := PlayNext(w, Posts(2));
  }

  lemma ArrivedAgain() returns (w: World)
    ensures Played(w) && w.commands == map[2 := Command(7, CommandPc.Posted)] && w.histories == map[7 := WRITTEN]
    ensures w.agent.phase.Up? && w.agent.accepting && w.agent.lock == None
    ensures w.agent.cells == map[9 := NewCell(Tasks.Accepted(5, ASKED, 0))]
    ensures 2 in w.agent.calls && w.agent.calls[2] == Submit(5, ASKED, SubmitWaiting)
  {
    hide Played, Tasks.Accepted, Happen;
    w := PostedAgain();
    w := PlayAgent(w, Arrives(2, Submit(5, ASKED, SubmitWaiting)));
  }

  // The agent finds the task it has.
  lemma AdmittedAgain() returns (w: World)
    ensures Played(w) && w.commands == map[2 := Command(7, CommandPc.Posted)] && w.histories == map[7 := WRITTEN]
    ensures w.agent.phase.Up? && w.agent.cells == map[9 := NewCell(Tasks.Accepted(5, ASKED, 0))]
    ensures 2 in w.agent.calls && w.agent.calls[2] == Submit(5, ASKED, SubmitAdmitted)
  {
    hide Played, Tasks.Accepted, Happen;
    w := ArrivedAgain();
    w := PlayAgent(w, BySubmit(2, SubmitLocks));
    w := PlayAgent(w, BySubmit(2, SubmitChecks(true)));
  }

  lemma FoundAgain() returns (w: World)
    ensures Played(w) && w.commands == map[2 := Command(7, CommandPc.Posted)] && w.histories == map[7 := WRITTEN]
    ensures w.agent.phase.Up? && w.agent.cells == map[9 := NewCell(Tasks.Accepted(5, ASKED, 0))]
    ensures 2 in w.agent.calls && w.agent.calls[2] == Submit(5, ASKED, SubmitOk(9))
  {
    AcceptedNames();
    hide Played, Tasks.Accepted, Happen;
    w := AdmittedAgain();
    w := PlayAgent(w, BySubmit(2, SubmitFinds(9)));
  }

  lemma AcceptedNames()
    ensures var t := Tasks.Accepted(5, ASKED, 0); t.controller == 5 && t.request == ASKED && t.state == Queued
  {
  }

  // Its answer arrives.
  lemma Told() returns (w: World)
    ensures Played(w) && w.histories == map[7 := WRITTEN]
    ensures w.commands == map[2 := Command(7, CheckingView(TaskView(9, 5, ASKED, Queued)))]
    ensures w.agent.cells == map[9 := NewCell(Tasks.Accepted(5, ASKED, 0))]
  {
    AcceptedNames();
    hide Played, Tasks.Accepted, Next;
    w := FoundAgain();
    w := PlayNext(w, AgentAnswersSubmit(2));
    w := PlayNext(w, Receives(2, TaskView(9, 5, ASKED, Queued)));
  }

  // Submitted twice, accepted once, and recorded.
  lemma DeliveredOnce() returns (w: World)
    ensures Played(w) && 7 in w.histories
    ensures w.histories[7].submission == Submission.Accepted && w.histories[7].remoteId == Some(9)
    ensures w.agent.cells == map[9 := NewCell(Tasks.Accepted(5, ASKED, 0))]
  {
    hide Played, Tasks.Accepted, Next;
    w := Told();
    w := PlayNext(w, Happening.Checks(2));
    w := PlayNext(w, Writes(2));
  }
}
