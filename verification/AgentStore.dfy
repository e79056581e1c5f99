// The agent's durable store. Every method is one transaction.
module AgentStore {
  import opened Text
  import opened Tasks

  datatype StoreError = InvalidRequest | Unauthorized | IdempotencyConflict | QueueFull | TaskNotFound
  datatype Result<+T> = Ok(value: T) | Err(error: StoreError)

  // --- What the queries select ------------------------------------------------

  predicate HasKey(t: Task, controller: int, requestId: int) {
    t.controller == controller && t.request.id == requestId
  }

  predicate Knows(tasks: map<int, Task>, controller: int, requestId: int) {
    exists id | id in tasks :: HasKey(tasks[id], controller, requestId)
  }

  // A controller's request id names at most one task.
  ghost predicate UniqueKeys(tasks: map<int, Task>) {
    forall i, j | i in tasks && j in tasks && HasKey(tasks[i], tasks[j].controller, tasks[j].request.id) :: i == j
  }

  function Waiting(tasks: map<int, Task>): set<int> {
    set id | id in tasks && tasks[id].state == Queued
  }

  predicate Earlier(tasks: map<int, Task>, i: int, j: int)
    requires i in tasks && j in tasks
  {
    tasks[i].createdAt < tasks[j].createdAt || (tasks[i].createdAt == tasks[j].createdAt && i <= j)
  }

  // The first queued task in the order of creation time, then id.
  predicate IsNext(tasks: map<int, Task>, id: int) {
    id in Waiting(tasks) && forall other | other in Waiting(tasks) :: Earlier(tasks, id, other)
  }

  // Some queued task is the first one.
  lemma {:induction false} NextExists(tasks: map<int, Task>, among: set<int>) returns (first: int)
    requires among != {} && among <= Waiting(tasks)
    ensures first in among && forall other | other in among :: Earlier(tasks, first, other)
    decreases |among|
  {
    Inhabited(among);
    var id :| id in among;
    if among == {id} {
      first := id;
    } else {
      var rest := among - {id};
      assert among == rest + {id};
      var best := NextExists(tasks, rest);
      first := if Earlier(tasks, id, best) then id else best;
    }
  }

  lemma NextIsUnique(tasks: map<int, Task>, i: int, j: int)
    requires IsNext(tasks, i) && IsNext(tasks, j)
    ensures i == j
  {
  }

  // The first task spelled out.
  lemma NextIsFirst(tasks: map<int, Task>, id: int)
    requires IsNext(tasks, id)
    ensures id in tasks && tasks[id].state == Queued
    ensures forall other | other in tasks && tasks[other].state == Queued && other != id ::
              tasks[id].createdAt < tasks[other].createdAt || (tasks[id].createdAt == tasks[other].createdAt && id < other)
  {
    forall other | other in tasks && tasks[other].state == Queued && other != id
      ensures tasks[id].createdAt < tasks[other].createdAt || (tasks[id].createdAt == tasks[other].createdAt && id < other)
    {
      assert other in Waiting(tasks);
    }
  }

  // The events after a number, in order, at most one page of them.
  function Numbers(log: seq<Event>, after: int): seq<Event> {
    if log == [] then []
    else Numbers(log[..|log|-1], after) + (if log[|log|-1].number > after then [log[|log|-1]] else [])
  }

  function Min(a: int, b: int): int {
    if a < b then a else b
  }

  function PageOf(log: seq<Event>, after: int): seq<Event> {
    var found := Numbers(log, if after < 0 then 0 else after);
    found[..Min(PAGE, |found|)]
  }

  lemma {:induction false} NumbersSlice(log: seq<Event>, after: nat)
    requires Numbered(log)
    ensures Numbers(log, after) == log[Min(after, |log|)..]
  {
    if log != [] {
      var n := |log| - 1;
      var head := log[..n];
      NumbersSlice(head, after);
      assert log[n].number == n + 1;
      if after <= n {
        assert Numbers(log, after) == head[after..] + [log[n]];
      } else {
        assert Numbers(log, after) == [] + [];
      }
    }
  }

  // Pages of a numbered log are consecutive slices of it.
  lemma PageSlice(log: seq<Event>, after: nat)
    requires Numbered(log)
    ensures var from := Min(after, |log|); PageOf(log, after) == log[from..Min(from + PAGE, |log|)]
  {
    NumbersSlice(log, after);
  }

  // --- Recovery of the whole table --------------------------------------------

  function RecoveredAll(tasks: map<int, Task>): map<int, Task> {
    map id | id in tasks :: Recovered(tasks[id])
  }

  // The table when recovery has changed only the rows in `done`.
  function PartlyRecovered(tasks: map<int, Task>, done: set<int>): map<int, Task> {
    map id | id in tasks :: if id in done then Interrupted(tasks[id]) else tasks[id]
  }

  // Stopped anywhere and started again, recovery ends where one pass ends.
  lemma RecoveryRestarts(tasks: map<int, Task>, done: set<int>)
    ensures RecoveredAll(PartlyRecovered(tasks, done)) == RecoveredAll(tasks)
    ensures RecoveredAll(RecoveredAll(tasks)) == RecoveredAll(tasks)
  {
    forall id | id in tasks
      ensures RecoveredAll(PartlyRecovered(tasks, done))[id] == Recovered(tasks[id])
      ensures RecoveredAll(RecoveredAll(tasks))[id] == Recovered(tasks[id])
    {
      RecoveryConverges(tasks[id]);
    }
  }

  lemma InactiveStays(t: Task)
    ensures t.state.Active() || Interrupted(t) == t
  {
  }

  lemma OutputAdds(t: Task, stream: Stream, text: Str)
    ensures var log := Output(t, stream, text).log;
            if t.bytes + ByteLen(text) <= 16 * 1024 * 1024 then
              |log| == |t.log| + 1 && log[..|t.log|] == t.log && log[|t.log|].body == Printed(stream, text)
              && TextOf(log[|t.log|].body) == text
            else if t.truncated then log == t.log
            else
              |log| == |t.log| + 1 && log[..|t.log|] == t.log && log[|t.log|].body == OutputTruncated
              && TextOf(log[|t.log|].body) == Scalars("日志超过 16 MiB，后续输出不再保留；任务继续运行")
  {
    hide ByteLen, MaxSeq;
  }

  lemma UpdateTwice(rows: map<int, Task>, id: int, first: Task, second: Task)
    ensures rows[id := first][id := second] == rows[id := second]
  {
  }

  // --- The store ------------------------------------------------------------------

  class AgentStore {
    var tasks: map<int, Task>
    var controllers: map<int, bool>  // paired controllers; false once revoked

    constructor ()
      ensures tasks == map[] && controllers == map[]
    {
      tasks := map[];
      controllers := map[];
    }

    // Persists a request once. `valid` is the outcome of the request's own
    // validation, `newId` the new random id, `at` the time.
    method Accept(controller: int, request: Request, valid: bool, newId: int, at: int)
      returns (r: Result<(int, bool)>)
      requires newId !in tasks && UniqueKeys(tasks)
      modifies this`tasks
      ensures UniqueKeys(tasks)
      ensures var authorized := controller in controllers && controllers[controller];
              var known := Knows(old(tasks), controller, request.id);
              if !valid then r == Err(InvalidRequest)
              else if !authorized then r == Err(Unauthorized)
              else if known then
                forall id | id in old(tasks) && HasKey(old(tasks)[id], controller, request.id) ::
                  r == if old(tasks)[id].request == request then Ok((id, false)) else Err(IdempotencyConflict)
              else r == if |Waiting(old(tasks))| < MAX_WAITING then Ok((newId, true)) else Err(QueueFull)
      ensures tasks == if r == Ok((newId, true)) then old(tasks)[newId := Accepted(controller, request, at)] else old(tasks)
      ensures r == Ok((newId, true)) ==> |Waiting(tasks)| == |Waiting(old(tasks))| + 1 <= MAX_WAITING
      ensures r == Ok((newId, true)) ==>
                newId in tasks && tasks[newId]
                == Task(controller, request, at, Queued, if request.content.wantsResults then Pending else NotRequested,
                        0, false, None, None, None, [Event(1, Moved(Queued, "任务已持久接受"))])
    {
      AcceptedRow(controller, request, at);
      hide Accepted;
      if !valid {
        return Err(InvalidRequest);
      }
      var hash := ContentHash(request);
      if !(controller in controllers && controllers[controller]) {
        return Err(Unauthorized);
      }
      if id :| id in tasks && HasKey(tasks[id], controller, request.id) {
        if ContentHash(tasks[id].request) != hash {
          return Err(IdempotencyConflict);
        }
        assert tasks[id].request == request;
        return Ok((id, false));
      }
      if |Waiting(tasks)| >= MAX_WAITING {
        return Err(QueueFull);
      }
      tasks := tasks[newId := Accepted(controller, request, at)];
      assert Waiting(tasks) == Waiting(old(tasks)) + {newId};
      return Ok((newId, true));
    }

    method Get(id: int, controller: Option<int>) returns (r: Result<Task>)
      ensures r == if id in tasks && (controller.None? || tasks[id].controller == controller.value)
                   then Ok(tasks[id]) else Err(TaskNotFound)
    {
      if id in tasks && (controller.None? || tasks[id].controller == controller.value) {
        return Ok(tasks[id]);
      }
      return Err(TaskNotFound);
    }

    method Events(id: int, controller: Option<int>, after: int) returns (r: Result<seq<Event>>)
      requires id in tasks ==> Numbered(tasks[id].log)
      ensures r.Ok? <==> id in tasks && (controller.None? || tasks[id].controller == controller.value)
      ensures r.Ok? ==>
                var log := tasks[id].log;
                var from := Min(if after < 0 then 0 else after, |log|);
                r.value == log[from..Min(from + PAGE, |log|)]
    {
      var t := Get(id, controller);
      if t.Err? {
        return Err(t.error);
      }
      PageSlice(t.value.log, if after < 0 then 0 else after);
      return Ok(PageOf(t.value.log, after));
    }

    // Takes the first task of the queue.
    method ClaimNext() returns (claimed: Option<int>)
      modifies this`tasks
      ensures claimed.None? <==> Waiting(old(tasks)) == {}
      ensures claimed.None? ==> tasks == old(tasks)
      ensures claimed.Some? ==>
                && IsNext(old(tasks), claimed.value)
                && tasks == old(tasks)[claimed.value := Claimed(old(tasks)[claimed.value])]
                && Waiting(tasks) == Waiting(old(tasks)) - {claimed.value}
      ensures claimed.Some? ==>
                var t, u := old(tasks)[claimed.value], tasks[claimed.value];
                && u == t.(state := Starting, log := u.log)
                && |u.log| == |t.log| + 1 && u.log[..|t.log|] == t.log && u.log[|t.log|].body == Moved(Starting, "准备启动执行实例")
      // every other queued task was created later, or at the same time with a greater id
      ensures claimed.Some? ==>
                && claimed.value in old(tasks) && old(tasks)[claimed.value].state == Queued
                && forall other | other in old(tasks) && old(tasks)[other].state == Queued && other != claimed.value ::
                     || old(tasks)[claimed.value].createdAt < old(tasks)[other].createdAt
                     || (old(tasks)[claimed.value].createdAt == old(tasks)[other].createdAt && claimed.value < other)
    {
      if id :| id in Waiting(tasks) && IsNext(tasks, id) {
        NextIsFirst(tasks, id);
        tasks := tasks[id := Claimed(tasks[id])];
        return Some(id);
      }
      if Waiting(tasks) != {} {
        var first := NextExists(tasks, Waiting(tasks));
        assert IsNext(tasks, first);
      }
      return None;
    }

    method Transition(id: int, from: set<RemoteState>, to: RemoteState, exit: Option<int>, note: string)
      returns (changed: bool)
      requires id in tasks
      modifies this`tasks
      ensures changed <==> old(tasks)[id].state in from && !old(tasks)[id].state.Terminal()
      ensures tasks == old(tasks)[id := Tasks.Transition(old(tasks)[id], from, to, exit, note)]
      ensures tasks.Keys == old(tasks).Keys
      ensures !changed ==> tasks == old(tasks)
      ensures changed ==>
                var t, u := old(tasks)[id], tasks[id];
                && u.state == to && u.exitCode == exit
                && u.error == (if to == Failed || to == RecoveryRequired then Some(note) else None)
                && u.result == (if t.result == Pending && (to == RecoveryRequired || (to.Terminal() && t.state in {Queued, Starting}))
                                then Incomplete else t.result)
                && |u.log| == |t.log| + 1 && u.log[..|t.log|] == t.log
                && u.log[|t.log|].body == Moved(to, note) && TextOf(u.log[|t.log|].body) == Scalars(note)
                && u == t.(state := u.state, exitCode := u.exitCode, error := u.error, result := u.result, log := u.log)
    {
      var current := tasks[id];
      if current.state !in from || current.state.Terminal() {
        assert tasks == tasks[id := current];
        return false;
      }
      tasks := tasks[id := Tasks.Transition(current, from, to, exit, note)];
      return true;
    }

    // INSERT ... SELECT COALESCE(MAX(seq),0)+1 FROM agent_events.
    method InsertEvent(id: int, body: EventBody)
      requires id in tasks
      modifies this`tasks
      ensures tasks == old(tasks)[id := Append(old(tasks)[id], body)]
    {
      var log := tasks[id].log;
      var last: nat := 0;
      for k := 0 to |log|
        invariant last == MaxSeq(log[..k])
      {
        assert log[..k + 1][..k] == log[..k];
        if log[k].number > last {
          last := log[k].number;
        }
      }
      assert log[..|log|] == log;
      tasks := tasks[id := tasks[id].(log := log + [Event(last + 1, body)])];
    }

    // The writes for a piece that fits.
    method KeepOutput(id: int, stream: Stream, text: Str)
      requires id in tasks && tasks[id].bytes + ByteLen(text) <= MAX_OUTPUT_BYTES
      modifies this`tasks
      ensures tasks == old(tasks)[id := Output(old(tasks)[id], stream, text)]
    {
      hide MaxSeq, ByteLen, ReportedProgress;
      ghost var was, t := tasks, tasks[id];
      tasks := tasks[id := tasks[id].(bytes := tasks[id].bytes + ByteLen(text))];
      InsertEvent(id, Printed(stream, text));
      UpdateTwice(was, id, t.(bytes := t.bytes + ByteLen(text)), tasks[id]);
      if stream == Stdout {
        var progress := ReportedProgress(text);
        if progress.Some? {
          UpdateTwice(was, id, tasks[id], tasks[id].(progress := progress));
          tasks := tasks[id := tasks[id].(progress := progress)];
        }
      }
    }

    // Records one piece of output, column by column, in one transaction.
    method RecordOutput(id: int, stream: Stream, text: Str)
      requires id in tasks && Sound(tasks[id])
      modifies this`tasks
      ensures tasks == old(tasks)[id := Output(old(tasks)[id], stream, text)] && Sound(tasks[id])
      ensures var t := old(tasks)[id];
              Retained(tasks[id].log, stream)
              == Retained(t.log, stream) + if t.bytes + ByteLen(text) <= MAX_OUTPUT_BYTES then [text] else []
      // the text of the added event, if there is one
      ensures var t, log := old(tasks)[id], tasks[id].log;
              if t.bytes + ByteLen(text) <= 16 * 1024 * 1024 then
                |log| == |t.log| + 1 && log[..|t.log|] == t.log && log[|t.log|].body == Printed(stream, text)
                && TextOf(log[|t.log|].body) == text
              else if t.truncated then log == t.log
              else
                |log| == |t.log| + 1 && log[..|t.log|] == t.log && log[|t.log|].body == OutputTruncated
                && TextOf(log[|t.log|].body) == Scalars("日志超过 16 MiB，后续输出不再保留；任务继续运行")
    {
      OutputAdds(tasks[id], stream, text);
      OutputSound(tasks[id], stream, text);
      KeptIffFits(tasks[id], stream, text);
      hide Sound, Retained, MaxSeq, ByteLen;
      ghost var was, t := tasks, tasks[id];
      if tasks[id].bytes + ByteLen(text) > MAX_OUTPUT_BYTES {
        if !tasks[id].truncated {
          InsertEvent(id, OutputTruncated);
          UpdateTwice(was, id, tasks[id], tasks[id].(truncated := true));
          tasks := tasks[id := tasks[id].(truncated := true)];
        } else {
          assert tasks == tasks[id := t];
        }
      } else {
        KeepOutput(id, stream, text);
      }
    }

    // Records the outcome of collecting the results, in one transaction. `problem`
    // is the error of the snapshot, if it failed.
    method RecordResults(id: int, problem: Option<string>)
      requires id in tasks && Sound(tasks[id])
      modifies this`tasks
      ensures tasks == old(tasks)[id := Collected(old(tasks)[id], problem.None?, CollectNote(problem))]
      ensures Sound(tasks[id]) && tasks[id].result == if problem.None? then Complete else Incomplete
      ensures var t, log := old(tasks)[id], tasks[id].log;
              && |log| == |t.log| + 1 && log[..|t.log|] == t.log
              && TextOf(log[|t.log|].body)
                 == Scalars(if problem.None? then "结果文件已复制并生成校验清单" else "结果收集不完整：" + problem.value)
    {
      CollectedSound(tasks[id], problem.None?, CollectNote(problem));
      hide Sound, MaxSeq;
      var status, note := Complete, NOTE_COLLECTED;
      if problem.Some? {
        status, note := Incomplete, NOTE_INCOMPLETE + problem.value;
      }
      tasks := tasks[id := tasks[id].(result := status)];
      InsertEvent(id, Results(problem.None?, note));
    }

    // Settles what an earlier run of the agent left open.
    method Recover()
      modifies this`tasks
      ensures tasks == RecoveredAll(old(tasks))
    {
      InterruptActive();
      ResolvePending();
      assert tasks.Keys == old(tasks).Keys;
      forall id | id in old(tasks) ensures tasks[id] == Recovered(old(tasks)[id]) {
      }
    }

    // One transaction for every task that was started and has no outcome.
    method InterruptActive()
      modifies this`tasks
      ensures tasks == PartlyRecovered(old(tasks), old(tasks).Keys)
    {
      hide Tasks.Transition, Interrupted;
      ghost var before := tasks;
      var ids := set id | id in tasks && tasks[id].state.Active();
      forall id | id in before
        ensures before[id].state.Active() || Interrupted(before[id]) == before[id]
      {
        InactiveStays(before[id]);
      }
      while ids != {}
        invariant ids <= before.Keys
        invariant tasks == PartlyRecovered(before, before.Keys - ids)
        invariant forall id | id in before && id !in ids :: tasks[id] == Interrupted(before[id])
        decreases |ids|
      {
        Inhabited(ids);
        var id :| id in ids;
        ids := ids - {id};
        InterruptedIs(before[id]);
        var changed := this.Transition(id, {Starting, Running, Cancelling}, RecoveryRequired, None, RECOVERY_NOTE);
      }
    }

    // One transaction for all results that can no longer be collected.
    method ResolvePending()
      modifies this`tasks
      ensures tasks == map id | id in old(tasks) :: Unresolved(old(tasks)[id])
    {
      ghost var before := tasks;
      var results := set id | id in tasks && tasks[id].result == Pending && tasks[id].state.Terminal();
      while results != {}
        invariant results <= before.Keys == tasks.Keys
        invariant forall id | id in before :: tasks[id] == if id in results then before[id] else Unresolved(before[id])
        invariant forall id | id in results :: before[id].result == Pending && before[id].state.Terminal()
        decreases |results|
      {
        Inhabited(results);
        var id :| id in results;
        tasks := tasks[id := Collected(tasks[id], false, NOTE_UNRESOLVED)];
        results := results - {id};
      }
      assert forall id | id in before :: tasks[id] == Unresolved(before[id]);
    }
  }
}
