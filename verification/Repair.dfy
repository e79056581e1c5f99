// Maintenance tasks of the application itself, over storage that may fail at any
// call. A failed result is either recorded or warned about, never silent.
module Repair {
  import opened Text

  datatype State = Queued | Running | Succeeded | Failed | Interrupted {
    predicate Terminal() {
      Succeeded? || Failed? || Interrupted?
    }
  }
  datatype Kind = Accepted | Became(state: State)
  datatype Event = Event(number: nat, kind: Kind, message: string)
  datatype Task = Task(requestId: int, action: int, state: State, result: string, log: seq<Event>)

  // A commit that reports an error may have taken effect.
  datatype Fault = Works | Fails | FailsAfterwards

  // --- What the transactions do ------------------------------------------------------

  function MaxNumber(log: seq<Event>): nat {
    if log == [] then 0
    else
      var m := MaxNumber(log[..|log|-1]);
      if log[|log|-1].number > m then log[|log|-1].number else m
  }

  function Append(log: seq<Event>, kind: Kind, message: string): seq<Event> {
    log + [Event(MaxNumber(log) + 1, kind, message)]
  }

  function Submitted(requestId: int, action: int): Task {
    Task(requestId, action, Queued, "", [Event(1, Accepted, "saved")])
  }

  function Started(t: Task): Task {
    if t.state != Queued then t
    else t.(state := Running, log := Append(t.log, Became(Running), "running"))
  }

  function Finished(t: Task, to: State, message: string): Task {
    if t.state.Terminal() then t
    else t.(state := to, result := message, log := Append(t.log, Became(to), message))
  }

  const LOST := "the application ended before the task did"

  // --- The log of a task --------------------------------------------------------------

  ghost predicate Numbered(log: seq<Event>) {
    forall k | 0 <= k < |log| :: log[k].number == k + 1
  }

  // Accepted, perhaps running, and one end that agrees with the row.
  ghost predicate Sound(t: Task) {
    && Numbered(t.log) && |t.log| >= 1 && t.log[0].kind == Accepted
    && match t.state
       case Queued => |t.log| == 1
       case Running => |t.log| == 2 && t.log[1].kind == Became(Running)
       case _ =>
         && (|t.log| == 2 || (|t.log| == 3 && t.log[1].kind == Became(Running)))
         && t.log[|t.log|-1].kind == Became(t.state) && t.log[|t.log|-1].message == t.result
         && (t.state == Succeeded ==> |t.log| == 3)
  }

  lemma {:induction false} MaxNumbered(log: seq<Event>)
    requires Numbered(log)
    ensures MaxNumber(log) == |log|
  {
    if log != [] {
      MaxNumbered(log[..|log|-1]);
    }
  }

  // Every transaction keeps the log in order; an ended task never changes again,
  // and only a running one can succeed.
  lemma TransactionsKeepSound(t: Task, to: State, message: string)
    requires Sound(t)
    ensures Sound(Started(t))
    ensures to.Terminal() && (to == Succeeded ==> t.state != Queued) ==> Sound(Finished(t, to, message))
    ensures t.state.Terminal() ==> Started(t) == t && Finished(t, to, message) == t
    ensures Started(t) == if t.state == Queued
                          then Task(t.requestId, t.action, Running, t.result, t.log + [Event(|t.log| + 1, Became(Running), "running")])
                          else t
    ensures !t.state.Terminal() ==>
              Finished(t, to, message)
              == Task(t.requestId, t.action, to, message, t.log + [Event(|t.log| + 1, Became(to), message)])
  {
    MaxNumbered(t.log);
  }

  // The task was given an end, and the end is what its log says last.
  ghost predicate Settled(t: Task) {
    t.state.Terminal() && Sound(t)
  }

  datatype SubmitResult = InvalidRequest | Conflict | StorageError | Saved(id: int, inserted: bool)

  class Store {
    const faults: nat -> Fault
    var calls: nat
    var tasks: map<int, Task>
    var warnings: map<int, string>

    constructor (faults: nat -> Fault)
      ensures this.faults == faults && tasks == map[] && warnings == map[] && Valid()
    {
      this.faults, calls, tasks, warnings := faults, 0, map[], map[];
    }

    // A task that is neither queued nor ended has a warning: nobody is running it.
    ghost predicate Valid()
      reads this
    {
      forall id | id in tasks :: Sound(tasks[id]) && (tasks[id].state == Running ==> id in warnings)
    }

    ghost predicate NoFaults() {
      forall n :: faults(n) == Works
    }

    // One call to the database that is not a commit.
    method Call() returns (ok: bool)
      modifies this`calls
      ensures NoFaults() ==> ok
    {
      ok := faults(calls).Works?;
      calls := calls + 1;
    }

    // Writes `after` over row `id`, if the commit takes effect.
    method Commit(id: int, after: Task) returns (ok: bool)
      modifies this`calls, this`tasks
      ensures tasks == old(tasks) || tasks == old(tasks)[id := after]
      ensures ok ==> tasks == old(tasks)[id := after]
      ensures NoFaults() ==> ok
    {
      var fault := faults(calls);
      calls := calls + 1;
      if !fault.Fails? {
        tasks := tasks[id := after];
      }
      ok := fault.Works?;
    }

    // The transaction both kinds of update have in common.
    method Update(id: int, after: Task) returns (ok: bool)
      requires id in tasks
      modifies this`calls, this`tasks
      ensures tasks == old(tasks) || tasks == old(tasks)[id := after]
      ensures ok ==> tasks == old(tasks)[id := after]
      ensures NoFaults() ==> ok
    {
      var begun := Call();
      if !begun {
        return false;
      }
      var updated := Call();
      if !updated {
        return false;
      }
      if after == tasks[id] {
        assert tasks == tasks[id := after];
        return true;
      }
      var logged := Call();
      if !logged {
        return false;
      }
      ok := Commit(id, after);
    }

    method Finish(id: int, to: State, message: string) returns (ok: bool)
      requires to.Terminal()
      modifies this`calls, this`tasks
      ensures id !in old(tasks) ==> tasks == old(tasks)
      ensures id in old(tasks) ==>
                && (tasks == old(tasks) || tasks == old(tasks)[id := Finished(old(tasks)[id], to, message)])
                && (ok ==> tasks == old(tasks)[id := Finished(old(tasks)[id], to, message)])
      ensures NoFaults() ==> ok
    {
      if id !in tasks {
        var begun := Call();
        if !begun {
          return false;
        }
        ok := Call();
        return;
      }
      ok := Update(id, Finished(tasks[id], to, message));
    }

    // Saves a request once; a repeat finds the task saved for it.
    method Submit(requestId: int, action: int, valid: bool, newId: int) returns (r: SubmitResult)
      requires Valid() && newId !in tasks && newId !in warnings
      modifies this`calls, this`tasks
      ensures Valid()
      ensures tasks == old(tasks) || (!Known(old(tasks), requestId) && valid && tasks == old(tasks)[newId := Submitted(requestId, action)])
      ensures r.Saved? ==> valid && r.id in tasks && tasks[r.id].requestId == requestId && tasks[r.id].action == action
                           && (r.inserted <==> !Known(old(tasks), requestId))
      ensures r.Saved? && r.inserted ==>
                r.id == newId && tasks[newId] == Task(requestId, action, Queued, "", [Event(1, Accepted, "saved")])
      ensures r.Conflict? ==> exists id | id in tasks :: tasks[id].requestId == requestId && tasks[id].action != action
      ensures NoFaults() && valid ==> r.Saved? || r.Conflict?
    {
      if !valid {
        return InvalidRequest;
      }
      var begun := Call();
      if !begun {
        return StorageError;
      }
      var inserted := Call();
      if !inserted {
        return StorageError;
      }
      var selected := Call();
      if !selected {
        return StorageError;
      }
      if id :| id in tasks && tasks[id].requestId == requestId {
        if tasks[id].action != action {
          return Conflict;
        }
        var ended := Commit(id, tasks[id]);
        assert tasks == old(tasks);
        return if ended then Saved(id, false) else StorageError;
      }
      var logged := Call();
      if !logged {
        return StorageError;
      }
      var ended := Commit(newId, Submitted(requestId, action));
      return if ended then Saved(newId, true) else StorageError;
    }

    // Runs a queued task. `outcome` is what the maintenance action itself reports.
    method RunInner(id: int, outcome: Outcome) returns (ok: bool)
      modifies this`calls, this`tasks
      ensures id !in old(tasks) ==> tasks == old(tasks)
      ensures id in old(tasks) ==>
                var t := old(tasks)[id];
                && tasks.Keys == old(tasks).Keys && tasks == old(tasks)[id := tasks[id]]
                && (tasks[id] == t || tasks[id] == Started(t) || (t.state.Queued? && tasks[id] == Ended(t, outcome)))
                && (ok ==> tasks[id] == if t.state.Queued? then Ended(t, outcome) else t)
      ensures NoFaults() ==> ok
    {
      if id !in tasks {
        var begun := Call();
        if !begun {
          return false;
        }
        ok := Call();
        return;
      }
      ghost var t := tasks[id];
      assert tasks == tasks[id := tasks[id]];
      var queued := tasks[id].state.Queued?;
      var started := Update(id, Started(tasks[id]));
      if !started {
        return false;
      }
      if !queued {
        return true;
      }
      var read := Call();
      if !read {
        return false;
      }
      ok := Finish(id, End(outcome), outcome.message);
    }

    // Afterwards the task has an end that agrees with its log, or there is a warning.
    method Run(id: int, outcome: Outcome) returns (warned: bool)
      requires Valid()
      modifies this
      ensures Valid() && tasks.Keys == old(tasks).Keys
      ensures forall other | other in tasks && other != id :: tasks[other] == old(tasks)[other]
      ensures id in tasks ==> tasks[id].requestId == old(tasks)[id].requestId && tasks[id].action == old(tasks)[id].action
      ensures id in tasks && !warned && id !in old(warnings) ==> Settled(tasks[id])
      ensures warned ==> id in warnings
      ensures warnings.Keys == old(warnings).Keys + if warned then {id} else {}
      ensures id in tasks && old(tasks)[id].state.Terminal() ==> tasks[id] == old(tasks)[id]
      ensures id in tasks && !old(tasks)[id].state.Succeeded? && tasks[id].state.Succeeded? ==>
                outcome.Passed? && tasks[id].result == outcome.message
      ensures NoFaults() && id in tasks && old(tasks)[id].state.Queued? ==>
                !warned && tasks[id].state == (if outcome.Passed? then Succeeded else Failed) && tasks[id].result == outcome.message
      // without a warning the task had its end before, or has that of the action, or one that says what failed
      ensures id in tasks && !warned && !old(tasks)[id].state.Terminal() && id !in old(warnings) ==>
                || (tasks[id].state == (if outcome.Passed? then Succeeded else Failed) && tasks[id].result == outcome.message)
                || (tasks[id].state == Failed && tasks[id].result == FAILURE)
    {
      ghost var before := tasks;
      hide Sound, Started, Ended, Finished;
      var ok := RunInner(id, outcome);
      warned := false;
      if !ok {
        var saved := Finish(id, Failed, FAILURE);
        if !saved {
          warnings := warnings[id := WARNING + FAILURE];
          warned := true;
        }
      }
      if id in before {
        RunEnds(before[id], outcome);
      }
    }

    // The writes of recovery, before its commit.
    method Interrupt() returns (ok: bool, next: map<int, Task>)
      modifies this`calls
      ensures ok ==> next == RecoveredAll(tasks)
      ensures NoFaults() ==> ok
    {
      var ids := set id | id in tasks && !tasks[id].state.Terminal();
      var left := ids;
      next := tasks;
      while left != {}
        invariant left <= ids && next.Keys == tasks.Keys
        invariant forall id | id in tasks :: next[id] == if id in left then tasks[id] else Recovered(tasks[id])
        decreases left
      {
        Inhabited(left);
        var id :| id in left;
        var updated := Call();
        if !updated {
          return false, next;
        }
        var logged := Call();
        if !logged {
          return false, next;
        }
        next := next[id := Recovered(tasks[id])];
        left := left - {id};
      }
      ghost var all := RecoveredAll(tasks);
      assert forall id :: id in next <==> id in all;
      assert forall id | id in tasks :: next[id] == all[id];
      assert next == all;
      ok := true;
    }

    // Opening the store: warnings are gone, and what had not ended is interrupted,
    // all of it or nothing.
    method Reopen() returns (ok: bool)
      requires forall id | id in tasks :: Sound(tasks[id])
      modifies this
      ensures ok ==> Valid() && tasks == RecoveredAll(old(tasks)) && forall id | id in tasks :: Settled(tasks[id])
      ensures tasks == old(tasks) || tasks == RecoveredAll(old(tasks))
      ensures forall id | id in tasks :: Sound(tasks[id])
      ensures NoFaults() ==> ok
    {
      warnings := map[];
      RecoverySettles(tasks);
      var begun := Call();
      if !begun {
        return false;
      }
      var selected := Call();
      if !selected {
        return false;
      }
      var written, next := Interrupt();
      if !written {
        return false;
      }
      var fault := faults(calls);
      calls := calls + 1;
      if !fault.Fails? {
        tasks := next;
      }
      ok := fault.Works?;
    }
  }

  datatype Outcome = Passed(message: string) | Problem(message: string)

  function End(outcome: Outcome): State {
    if outcome.Passed? then Succeeded else Failed
  }

  function Ended(t: Task, outcome: Outcome): Task {
    Finished(Started(t), End(outcome), outcome.message)
  }

  predicate SameRequest(t: Task, u: Task) {
    u.requestId == t.requestId && u.action == t.action
  }

  // The ways through a run: what the first part leaves, and the second makes of it.
  lemma RunEnds(t: Task, outcome: Outcome)
    requires Sound(t)
    ensures Sound(Started(t))
    ensures t.state.Queued? ==>
              && Settled(Ended(t, outcome))
              && Ended(t, outcome).state == End(outcome) && Ended(t, outcome).result == outcome.message
    ensures Settled(Finished(t, Failed, FAILURE)) && Settled(Finished(Started(t), Failed, FAILURE))
    ensures t.state.Queued? ==> Finished(Ended(t, outcome), Failed, FAILURE) == Ended(t, outcome)
    ensures Started(t).state == (if t.state.Queued? then Running else t.state)
    ensures t.state.Terminal() ==> Started(t) == t && Finished(t, Failed, FAILURE) == t
    ensures !t.state.Terminal() ==> Finished(t, Failed, FAILURE).state == Finished(Started(t), Failed, FAILURE).state == Failed
    ensures !t.state.Terminal() ==> Finished(t, Failed, FAILURE).result == Finished(Started(t), Failed, FAILURE).result == FAILURE
    ensures t.state.Running? ==> Started(t) == t
    ensures SameRequest(t, Started(t)) && SameRequest(t, Ended(t, outcome))
    ensures SameRequest(t, Finished(t, Failed, FAILURE)) && SameRequest(t, Finished(Started(t), Failed, FAILURE))
  {
    TransactionsKeepSound(t, Failed, FAILURE);
    TransactionsKeepSound(Started(t), Failed, FAILURE);
    TransactionsKeepSound(Started(t), End(outcome), outcome.message);
  }

  const FAILURE := "the task or saving its result failed; not retried"
  const WARNING := "RESULT_NOT_SAVED: "

  predicate Known(tasks: map<int, Task>, requestId: int) {
    exists id | id in tasks :: tasks[id].requestId == requestId
  }

  function Recovered(t: Task): Task {
    Finished(t, Interrupted, LOST)
  }

  function RecoveredAll(tasks: map<int, Task>): map<int, Task> {
    map id | id in tasks :: Recovered(tasks[id])
  }

  // Recovery ends every task, keeps every end there is, and can be repeated.
  lemma RecoverySettles(tasks: map<int, Task>)
    requires forall id | id in tasks :: Sound(tasks[id])
    ensures forall id | id in tasks :: Settled(RecoveredAll(tasks)[id])
    ensures forall id | id in tasks && tasks[id].state.Terminal() :: RecoveredAll(tasks)[id] == tasks[id]
    ensures RecoveredAll(RecoveredAll(tasks)) == RecoveredAll(tasks)
    ensures RecoveredAll(tasks).Keys == tasks.Keys
    // what had not ended is interrupted, with its event, and nothing else of it changes
    ensures forall id | id in tasks && !tasks[id].state.Terminal() ::
              var t, u := tasks[id], RecoveredAll(tasks)[id];
              && u.state == Interrupted && u.result == LOST && u.requestId == t.requestId && u.action == t.action
              && u.log == t.log + [Event(|t.log| + 1, Became(Interrupted), LOST)]
  {
    forall id | id in tasks {
      MaxNumbered(tasks[id].log);
    }
    forall id | id in tasks
      ensures Settled(Recovered(tasks[id])) && Recovered(Recovered(tasks[id])) == Recovered(tasks[id])
    {
      TransactionsKeepSound(tasks[id], Interrupted, LOST);
    }
  }
}
