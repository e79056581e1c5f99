// The order in which the agent takes tasks from its queue, over whole runs.
module Queue {
  import opened Text
  import opened Tasks
  import opened Engine
  import opened AgentStore
  import opened System
  import opened Safety
  import Theorems

  // The action accepts task `id` at time `at`.
  predicate Accepts(a: Action, id: int, at: int) {
    a.BySubmit? && a.submit == SubmitCreates(id, at)
  }

  lemma AcceptedThen(s: Sys, a: Action, id: int, at: int)
    requires Next(s, a).Some? && Accepts(a, id, at)
    ensures id !in s.cells && id in Next(s, a).value.cells && Next(s, a).value.cells[id].task.createdAt == at
  {
    AcceptedIs(s.calls[a.c].controller, s.calls[a.c].request, at);
    hide Knows, Waiting, Accepted;
  }

  lemma TimeStays(s: Sys, a: Action, id: int)
    requires Inv(s) && Next(s, a).Some? && id in s.cells
    ensures id in Next(s, a).value.cells && Next(s, a).value.cells[id].task.createdAt == s.cells[id].task.createdAt
  {
    hide Inv, Next;
    NextForward(s, a);
    assert Forward(s.cells[id].task, Next(s, a).value.cells[id].task);
  }

  // A task keeps the time it has.
  lemma {:induction false} TimesStay(s: Sys, actions: seq<Action>, id: int)
    requires Inv(s) && Run(s, actions).Some? && id in s.cells
    ensures var t := Run(s, actions).value; id in t.cells && t.cells[id].task.createdAt == s.cells[id].task.createdAt
    decreases |actions|
  {
    hide Inv, Next;
    if actions != [] {
      NextKeeps(s, actions[0]);
      TimeStays(s, actions[0], id);
      TimesStay(Next(s, actions[0]).value, actions[1..], id);
    }
  }

  // The creation time of a row is the time at which the task was accepted.
  lemma {:induction false} CreatedWhenAccepted(s: Sys, actions: seq<Action>, i: nat, id: int, at: int)
    requires Inv(s) && Run(s, actions).Some? && i < |actions| && Accepts(actions[i], id, at)
    ensures var t := Run(s, actions).value; id in t.cells && t.cells[id].task.createdAt == at
    decreases |actions|
  {
    hide Inv, Next, Accepts;
    NextKeeps(s, actions[0]);
    var u := Next(s, actions[0]).value;
    if i == 0 {
      AcceptedThen(s, actions[0], id, at);
      TimesStay(u, actions[1..], id);
    } else {
      assert actions[i] == actions[1..][i - 1];
      CreatedWhenAccepted(u, actions[1..], i - 1, id, at);
    }
  }

  // Of the tasks in the queue the one accepted first is started first, and of two
  // accepted at the same time the one with the smaller id.
  lemma FirstComeFirstServed(n: nat, actions: seq<Action>, id: int, i: nat, at: int, other: int, j: nat, later: int)
    requires Run(Start(n), actions).Some? && Next(Run(Start(n), actions).value, ByRunner(Claims(id))).Some?
    requires i < |actions| && Accepts(actions[i], id, at) && j < |actions| && Accepts(actions[j], other, later)
    requires other != id
    requires var s := Run(Start(n), actions).value; other in s.cells && s.cells[other].task.state == Queued
    ensures at < later || (at == later && id < other)
  {
    var s := Run(Start(n), actions).value;
    ClaimIsNext(s, id);
    hide Inv, Run, Next, IsNext;
    StartInv(n);
    CreatedWhenAccepted(Start(n), actions, i, id, at);
    CreatedWhenAccepted(Start(n), actions, j, other, later);
    NextIsFirst(s.Tasks(), id);
    assert s.Tasks()[id] == s.cells[id].task && s.Tasks()[other] == s.cells[other].task;
  }

  lemma ClaimIsNext(s: Sys, id: int)
    requires Next(s, ByRunner(Claims(id))).Some?
    ensures IsNext(s.Tasks(), id)
  {
    hide Do, Enabled;
  }
}
