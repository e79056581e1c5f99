// Both sides at once: the protocol world and the polling of one accepted history.
// The log that the windows follow is the log of the agent's own task row.
module Joined {
  import opened Text
  import opened Tasks
  import opened Engine
  import opened Ordering
  import opened Safety
  import System
  import Theorems
  import Protocol
  import Replica

  // `history` is the row whose task is followed.
  datatype Joined = Joined(world: Protocol.World, history: int, replica: Replica.Replica)

  datatype Event =
    | InWorld(h: Protocol.Happening)
    | Opens(p: int)
    | Polls(p: int, step: Replica.Step)

  function LogOf(w: Protocol.World, task: int): seq<Tasks.Event> {
    if task in w.agent.cells then w.agent.cells[task].task.log else []
  }

  // What the agent has added to the log since.
  function Added(before: seq<Tasks.Event>, log: seq<Tasks.Event>): seq<Tasks.Event> {
    if |before| <= |log| then log[|before|..] else []
  }

  // The state after an event, or None when the event cannot happen now.
  ghost function Next(j: Joined, e: Event): Option<Joined> {
    match e
    case InWorld(h) =>
      var w := Protocol.Happen(j.world, h);
      if w.None? then None
      else
        var more := Added(j.replica.log, LogOf(w.value, j.replica.task));
        Some(j.(world := w.value, replica := Replica.Next(j.replica, Replica.Logs(more))))
    case Opens(p) => Some(j.(replica := Replica.Next(j.replica, Replica.Opens(p))))
    case Polls(p, step) => Some(j.(replica := Replica.Next(j.replica, Replica.Polls(p, step))))
  }

  ghost function Run(j: Joined, events: seq<Event>): Option<Joined>
    decreases |events|
  {
    if events == [] then Some(j)
    else
      var k := Next(j, events[0]);
      if k.None? then None else Run(k.value, events[1..])
  }

  // The history names its task, and nothing has been cached or shown yet.
  ghost predicate Begins(j: Joined) {
    && j.history in j.world.histories && j.world.histories[j.history].remoteId == Some(j.replica.task)
    && j.replica.log == LogOf(j.world, j.replica.task) && j.replica.cache == map[] && j.replica.pollers == map[]
  }

  ghost predicate JoinedInv(j: Joined, m: nat) {
    && Protocol.WorldInv(j.world)
    && j.history in j.world.histories && j.world.histories[j.history].remoteId == Some(j.replica.task)
    && j.replica.task in j.world.agent.cells && j.replica.log == j.world.agent.cells[j.replica.task].task.log
    && Replica.Holds(j.replica, m)
  }

  // Logs of the agent only grow, whatever happens in the world.
  lemma LogGrows(w: Protocol.World, h: Protocol.Happening, task: int)
    requires Protocol.WorldInv(w) && Protocol.Happen(w, h).Some? && task in w.agent.cells
    ensures var v := Protocol.Happen(w, h).value;
            && task in v.agent.cells && w.agent.cells[task].task.log <= v.agent.cells[task].task.log
            && Numbered(v.agent.cells[task].task.log)
  {
    var v := Protocol.Happen(w, h).value;
    Protocol.HappenKeeps(w, h);
    AgentAfter(w, h);
    hide Protocol.WorldInv, Protocol.Happen, Forward, System.Next;
    if h.AgentActs? {
      AgentGrows(w, h.a, task);
    }
    NumberedAt(v, task);
  }

  lemma AgentAfter(w: Protocol.World, h: Protocol.Happening)
    requires Protocol.Happen(w, h).Some?
    ensures var v := Protocol.Happen(w, h).value;
            if h.AgentActs? then System.Next(w.agent, h.a) == Some(v.agent) else v.agent == w.agent
  {
    hide System.Next;
  }

  lemma AgentGrows(w: Protocol.World, a: System.Action, task: int)
    requires Protocol.WorldInv(w) && System.Next(w.agent, a).Some? && task in w.agent.cells
    ensures var t := System.Next(w.agent, a).value;
            task in t.cells && w.agent.cells[task].task.log <= t.cells[task].task.log
  {
    assert System.Reachable(w.agent);
    hide Inv, System.Reachable, System.Next, Protocol.WorldInv;
    ReachableInv(w.agent);
    NextForward(w.agent, a);
  }

  lemma NumberedAt(w: Protocol.World, task: int)
    requires Protocol.WorldInv(w) && task in w.agent.cells
    ensures Numbered(w.agent.cells[task].task.log)
  {
    Theorems.RowsAreReplays(w.agent, task);
  }

  lemma NextJoined(j: Joined, m: nat, e: Event) returns (n: nat)
    requires JoinedInv(j, m) && Next(j, e).Some?
    ensures JoinedInv(Next(j, e).value, n) && Next(j, e).value.history == j.history
    ensures Next(j, e).value.replica.task == j.replica.task
  {
    hide Replica.Holds, Protocol.WorldInv, Protocol.Happen;
    match e
    case InWorld(h) =>
      var v := Protocol.Happen(j.world, h).value;
      LogGrows(j.world, h, j.replica.task);
      Protocol.HappenKeeps(j.world, h);
      var more := Added(j.replica.log, LogOf(v, j.replica.task));
      assert j.replica.log + more == v.agent.cells[j.replica.task].task.log;
      Replica.NextHolds(j.replica, m, Replica.Logs(more));
      n := Replica.Held(j.replica, m, Replica.Logs(more));
    case Opens(p) =>
      Replica.NextHolds(j.replica, m, Replica.Opens(p));
      n := Replica.Held(j.replica, m, Replica.Opens(p));
    case Polls(p, step) =>
      Replica.NextHolds(j.replica, m, Replica.Polls(p, step));
      n := Replica.Held(j.replica, m, Replica.Polls(p, step));
  }

  lemma {:induction false} RunJoined(j: Joined, m: nat, events: seq<Event>) returns (n: nat)
    requires JoinedInv(j, m) && Run(j, events).Some?
    ensures var k := Run(j, events).value; JoinedInv(k, n) && k.history == j.history && k.replica.task == j.replica.task
    decreases |events|
  {
    hide JoinedInv, Next;
    n := m;
    if events != [] {
      n := NextJoined(j, m, events[0]);
      n := RunJoined(Next(j, events[0]).value, n, events[1..]);
    }
  }

  lemma BeginsInv(concurrency: nat, hs: seq<Protocol.Happening>, j: Joined)
    requires Protocol.Play(Protocol.Begin(concurrency), hs) == Some(j.world) && Begins(j)
    ensures JoinedInv(j, 0)
  {
    Protocol.BeginInv(concurrency);
    hide Protocol.Play, Protocol.Happen;
    Protocol.PlayKeeps(Protocol.Begin(concurrency), hs);
    NumberedAt(j.world, j.replica.task);
  }

  // From any state of the world in which a history has been accepted, over any run of
  // controller, network, agent, crashes and windows: the history still names its own
  // task, the cache is a prefix without gaps of that task's log on the agent, and
  // every window shows the last events of it up to a cursor within the cache.
  lemma ReplicaOfTheTask(concurrency: nat, hs: seq<Protocol.Happening>, j: Joined, events: seq<Event>)
    requires Protocol.Play(Protocol.Begin(concurrency), hs) == Some(j.world) && Begins(j)
    requires Run(j, events).Some?
    ensures var k := Run(j, events).value;
            && j.history in k.world.histories && j.replica.task in k.world.agent.cells
            && var h, log, r := k.world.histories[j.history], k.world.agent.cells[j.replica.task].task.log, k.replica;
               && h.remoteId == Some(j.replica.task)
               && Protocol.Names(k.world.agent, j.replica.task, h.controller, h.request)
               && Replica.CacheIs(r.cache, log, |r.cache|)
               && forall p | p in r.pollers ::
                    && 0 <= r.pollers[p].cursor <= |r.cache|
                    && r.pollers[p].window == log[Max(0, r.pollers[p].cursor - Replica.SHOWN)..r.pollers[p].cursor]
  {
    BeginsInv(concurrency, hs, j);
    hide Protocol.Play;
    var m := RunJoined(j, 0, events);
    var k := Run(j, events).value;
    hide Run, System.Reachable;
    assert k.replica.cache.Keys == Replica.Firsts(m);
  }
}
