// One task of the agent together with its executor: the durable row, and the
// volatile state of the code that runs it. The steps are the stretches between
// two awaits; every store call is one step.
module Engine {
  import opened Text
  import opened Utf8
  import opened Pipe
  import opened Tasks
  import opened Retention

  // Where the executor of a task is.
  datatype Pc =
    | Idle                                // no executor in this process
    | Picked                              // claimed, its token not registered yet
    | Begun                               // running, before it reads the task again
    | EarlyCancel                         // it read `cancelling`
    | Launching                           // it read something else; about to start the process
    | LaunchFailed
    | Launched                            // the process runs, not recorded yet
    | Watching                            // in the select loop
    | TimingOut                           // past the deadline, not recorded yet
    | Draining                            // the process has exited
    | Finishing(final: RemoteState)
    | Collecting
    | Ending(ok: bool)                    // before its token is removed
    | Ended(ok: bool)                     // before the runner joins it
    | Gone(ok: bool)                      // joined, or dropped with the runner
  {
    // In the runner's JoinSet.
    predicate Joinable() {
      Begun? || EarlyCancel? || Launching? || LaunchFailed? || Launched? || Watching? || TimingOut?
      || Draining? || Finishing? || Collecting? || Ending? || Ended?
    }
  }

  // How a process ends: with a code, or by a signal.
  datatype ExitStatus = Code(code: int) | Signalled {
    predicate Success() {
      this == Code(0)
    }

    function CodeOf(): Option<int> {
      if Code? then Some(code) else None
    }
  }

  // What makes the select loop stop its process, if anything does.
  datatype Notice = TokenCancelled | DeadlinePassed

  // The output of the process: what it writes, and how many of the pieces its two
  // readers send have reached the store.
  datatype Feed = Feed(bytes: seq<Byte>, taken: nat) {
    function All(): seq<Str> {
      Pieces(bytes, true)
    }
    ghost predicate Valid() {
      taken <= |All()|
    }
    function Seen(): seq<Str>
      requires Valid()
    {
      All()[..taken]
    }
  }

  datatype Cell = Cell(
    task: Task,
    spawned: nat,            // processes started for the task, ever
    pc: Pc,
    registered: bool,        // its token is in the table of active tasks
    token: bool,             // its token is cancelled
    reason: Option<RemoteState>,
    out: Feed,
    err: Feed,
    noticed: seq<Notice>,    // what the select loop has noticed, in order
    exited: Option<ExitStatus>,  // how the process has exited
    printed: seq<Piece>,     // the pieces that have reached the store, of both streams
    early: bool,             // its end was recorded while it was being cancelled, before a launch succeeded
    torn: bool)              // its executor failed between recording its end and recording its result

  function NewCell(task: Task): Cell {
    Cell(task, 0, Idle, false, false, None, Feed([], 0), Feed([], 0), [], None, [], false, false)
  }

  // --- Steps ------------------------------------------------------------------

  datatype Step =
    // the runner
    | Claim | Register | Join
    | Drop                                // with the runner's other executors, when a claim fails
    // the executor
    | Check
    | CancelEarly
    | Launch(out: seq<Byte>, err: seq<Byte>)
    | LaunchFails(reached: bool)
    | RecordLaunchFailure(why: string)
    | RecordRunning
    | SeeToken
    | PassDeadline
    | RecordTimeout
    | Print(stream: Stream)
    | Exit(status: ExitStatus)
    | CloseOutput
    | Finish
    | Collect(problem: Option<string>)
    | Unregister
    | Fail                                // a store call or the process fails
    | Panic
    // a canceller
    | CancelQueued | CancelActive | CancelToken
    // the process of the agent
    | Crash | Interrupt | Resolve

  function FeedOf(c: Cell, stream: Stream): Feed {
    if stream == Stdout then c.out else c.err
  }

  function FinalState(c: Cell): RemoteState {
    if c.reason.Some? then c.reason.value
    else if c.exited.Some? && c.exited.value.Success() then Succeeded
    else Failed
  }

  function ExitCode(c: Cell): Option<int> {
    if c.exited.Some? then c.exited.value.CodeOf() else None
  }

  // When a step can be taken.
  predicate Enabled(c: Cell, s: Step) {
    match s
    case Claim => c.task.state == Queued
    case Register => c.pc.Picked?
    case Join => c.pc.Ended?
    case Drop => c.pc.Joinable()
    case Check => c.pc.Begun?
    case CancelEarly => c.pc.EarlyCancel?
    case Launch(_, _) => c.pc.Launching?
    case LaunchFails(_) => c.pc.Launching?
    case RecordLaunchFailure(_) => c.pc.LaunchFailed?
    case RecordRunning => c.pc.Launched?
    case SeeToken => c.pc.Watching? && c.token && c.reason.None?
    case PassDeadline => c.pc.Watching? && c.reason.None?
    case RecordTimeout => c.pc.TimingOut?
    case Print(stream) =>
      (c.pc.Watching? || c.pc.Draining?) && FeedOf(c, stream).taken < |FeedOf(c, stream).All()|
    case Exit(_) => c.pc.Watching?
    case CloseOutput => c.pc.Draining? && c.out.taken == |c.out.All()| && c.err.taken == |c.err.All()|
    case Finish => c.pc.Finishing?
    case Collect(_) => c.pc.Collecting?
    case Unregister => c.pc.Ending?
    case Fail => c.pc.Joinable() && !c.pc.Ending? && !c.pc.Ended?
    case Panic => c.pc.Joinable() && !c.pc.Ended?
    case CancelQueued => true
    case CancelActive => true
    case CancelToken => true
    case Crash => true
    case Interrupt => c.pc.Idle?
    case Resolve => c.pc.Idle?
  }

  // The cell after a step.
  function Do(c: Cell, s: Step): Cell
    requires Enabled(c, s)
  {
    match s
    case Claim => c.(task := Claimed(c.task), pc := Picked)
    case Register => c.(registered := true, token := false, pc := Begun)
    case Join => c.(pc := Gone(c.pc.ok))
    case Drop => c.(pc := Gone(false), torn := c.torn || c.pc.Collecting?)
    case Check => c.(pc := if c.task.state == Cancelling then EarlyCancel else Launching)
    case CancelEarly =>
      c.(task := Transition(c.task, {Cancelling}, Cancelled, None, NOTE_CANCELLED_EARLY), pc := Ending(true), early := true)
    case Launch(out, err) => c.(spawned := c.spawned + 1, out := Feed(out, 0), err := Feed(err, 0), pc := Launched)
    case LaunchFails(reached) => c.(spawned := if reached then c.spawned + 1 else c.spawned, pc := LaunchFailed)
    case RecordLaunchFailure(why) =>
      c.(task := Transition(c.task, {Starting, Cancelling}, Failed, None, why), pc := Ending(true),
         early := c.task.state == Cancelling)
    case RecordRunning =>
      c.(task := Transition(c.task, {Starting}, Running, None, NOTE_STARTED), pc := Watching)
    case SeeToken => c.(reason := Some(Cancelled), noticed := c.noticed + [TokenCancelled])
    case PassDeadline => c.(reason := Some(TimedOut), pc := TimingOut, noticed := c.noticed + [DeadlinePassed])
    case RecordTimeout =>
      c.(task := Transition(c.task, {Running, Starting}, Cancelling, None, NOTE_TIMED_OUT), pc := Watching)
    case Print(stream) =>
      var f := FeedOf(c, stream);
      var t := Output(c.task, stream, f.All()[f.taken]);
      var printed := c.printed + [Piece(stream, f.All()[f.taken])];
      if stream == Stdout then c.(task := t, out := f.(taken := f.taken + 1), printed := printed)
      else c.(task := t, err := f.(taken := f.taken + 1), printed := printed)
    case Exit(status) => c.(pc := Draining, exited := Some(status))
    case CloseOutput => c.(pc := Finishing(FinalState(c)))
    case Finish =>
      c.(task := Transition(c.task, {Starting, Running, Cancelling}, c.pc.final, ExitCode(c), NoteOf(c.pc.final)), pc := Collecting)
    case Collect(problem) =>
      c.(task := if c.task.WantsResults() then Collected(c.task, problem.None?, CollectNote(problem)) else c.task, pc := Ending(true))
    case Unregister => c.(registered := false, pc := Ended(c.pc.ok))
    case Fail => c.(pc := Ending(false), torn := c.pc.Collecting?)
    case Panic => c.(pc := Ended(false), torn := c.torn || c.pc.Collecting?)
    case CancelQueued => c.(task := Transition(c.task, {Queued}, Cancelled, None, NOTE_DEQUEUED))
    case CancelActive => c.(task := Transition(c.task, {Starting, Running}, Cancelling, None, NOTE_CANCELLING))
    case CancelToken => if c.registered then c.(token := true) else c
    case Crash => c.(pc := Idle, registered := false, token := false, reason := None, early := false, torn := false)
    case Interrupt => c.(task := Interrupted(c.task))
    case Resolve => c.(task := Unresolved(c.task))
  }

  // Who may take a step when: Claim, Register, Join and Drop are the runner's, Crash to
  // Resolve belong to the process.
  predicate ExecutorStep(s: Step) {
    !s.Claim? && !s.Register? && !s.Join? && !s.Drop? && !s.CancelQueued? && !s.CancelActive? && !s.CancelToken?
    && !s.Crash? && !s.Interrupt? && !s.Resolve?
  }

  // --- The grammar of a log -----------------------------------------------------

  // How far a log has come. `Over` says whether one results event may still follow.
  datatype Stage =
    | Nothing | InQueue | InStart | InRun | InCancel | Over(open: bool) | Wrong

  function After(wants: bool, g: Stage, body: EventBody): Stage {
    match (g, body)
    case (Nothing, Moved(Queued, _)) => InQueue
    case (InQueue, Moved(Starting, _)) => InStart
    case (InQueue, Moved(Cancelled, _)) => Over(false)
    case (InStart, Moved(Running, _)) => InRun
    case (InStart, Moved(Cancelling, _)) => InCancel
    case (InStart, Moved(Failed, _)) => Over(false)
    case (InStart, Moved(RecoveryRequired, _)) => Over(false)
    case (InRun, Printed(_, _)) => InRun
    case (InRun, OutputTruncated) => InRun
    case (InRun, Moved(Cancelling, _)) => InCancel
    case (InRun, Moved(Succeeded, _)) => Over(wants)
    case (InRun, Moved(Failed, _)) => Over(wants)
    case (InRun, Moved(RecoveryRequired, _)) => Over(false)
    case (InCancel, Printed(_, _)) => g
    case (InCancel, OutputTruncated) => g
    case (InCancel, Moved(Succeeded, _)) => Over(wants)
    case (InCancel, Moved(Failed, _)) => Over(wants)
    case (InCancel, Moved(Cancelled, _)) => Over(wants)
    case (InCancel, Moved(TimedOut, _)) => Over(wants)
    case (InCancel, Moved(RecoveryRequired, _)) => Over(false)
    case (Over(true), Results(_, _)) => Over(false)
    case _ => Wrong
  }

  function StageOf(wants: bool, log: seq<Event>): Stage {
    if log == [] then Nothing
    else After(wants, StageOf(wants, log[..|log|-1]), log[|log|-1].body)
  }

  // --- The invariant of a task ----------------------------------------------

  function StageNow(t: Task): Stage {
    match t.state
    case Queued => InQueue
    case Starting => InStart
    case Running => InRun
    case Cancelling => InCancel
    case _ => Over(t.result == Pending)
  }

  // Row and log agree, the log follows the grammar, and the states still ahead
  // bound the state changes still to come.
  ghost predicate TaskInv(t: Task) {
    && Sound(t)
    && StageOf(t.WantsResults(), t.log) == StageNow(t)
    && StateEvents(t.log) + t.state.Rank() <= 5
    && (!t.WantsResults() ==> t.result == NotRequested)
    && (!t.state.Terminal() && t.WantsResults() ==> t.result == Pending)
  }

  ghost predicate Subsequence(a: seq<Str>, b: seq<Str>) {
    a == [] || (b != [] && (Subsequence(a, b[..|b|-1]) || (a[|a|-1] == b[|b|-1] && Subsequence(a[..|a|-1], b[..|b|-1]))))
  }

  // What the log keeps of a stream is a subsequence of the pieces its reader sent,
  // in order, and all of them unless the output was truncated.
  ghost predicate Kept(t: Task, stream: Stream, f: Feed) {
    && f.Valid()
    && Subsequence(Retained(t.log, stream), f.Seen())
    && (!t.truncated ==> Retained(t.log, stream) == f.Seen())
  }

  ghost predicate ReasonInv(c: Cell) {
    match c.reason
    case None => true
    case Some(r) => (r == Cancelled && c.token) || (r == TimedOut && c.task.state == Cancelling)
  }

  // An executor that is done, with an error or without one: the task may have ended,
  // and then its result is open only for one of two reasons.
  ghost predicate DoneInv(c: Cell, ok: bool) {
    && (ok ==> c.task.state.Terminal() && !c.torn)
    && (c.task.state.Terminal() ==> (c.task.result == Pending <==> c.task.WantsResults() && (c.early || c.torn)))
  }

  ghost predicate PcInv(c: Cell) {
    var state := c.task.state;
    && (c.early || c.torn ==> c.pc.Ending? || c.pc.Ended? || c.pc.Gone?)
    && match c.pc
    case Idle => !c.registered && !c.token && c.reason.None?
    case Picked => (state == Starting || state == Cancelling) && !c.registered && !c.token && c.reason.None? && c.spawned == 0
    case Begun => (state == Starting || state == Cancelling) && c.registered && c.reason.None? && c.spawned == 0
    case EarlyCancel => state == Cancelling && c.registered && c.spawned == 0
    case Launching => (state == Starting || state == Cancelling) && c.registered && c.reason.None? && c.spawned == 0
    case LaunchFailed => (state == Starting || state == Cancelling) && c.registered
    case Launched => (state == Starting || state == Cancelling) && c.registered && c.reason.None? && c.spawned == 1
    case Watching => (state == Running || state == Cancelling) && c.registered && ReasonInv(c) && c.spawned == 1
    case TimingOut => (state == Running || state == Cancelling) && c.registered && c.reason == Some(TimedOut) && c.spawned == 1
    case Draining => (state == Running || state == Cancelling) && c.registered && ReasonInv(c) && c.spawned == 1
    case Finishing(final) =>
      && (state == Running || state == Cancelling) && c.registered && c.spawned == 1
      && (final == Succeeded || final == Failed || ((final == Cancelled || final == TimedOut) && state == Cancelling))
    case Collecting => c.registered && state.Terminal() && (c.task.WantsResults() ==> c.task.result == Pending)
    case Ending(ok) => c.registered && DoneInv(c, ok)
    case Ended(ok) => (ok ==> !c.registered) && DoneInv(c, ok)
    case Gone(ok) => DoneInv(c, ok)
  }

  // Everything the process wrote has reached the store.
  ghost predicate AllTaken(out: Feed, err: Feed) {
    out.taken == |out.All()| && err.taken == |err.All()|
  }

  ghost predicate CellInv(c: Cell) {
    && TaskInv(c.task)
    && Kept(c.task, Stdout, c.out)
    && Kept(c.task, Stderr, c.err)
    && c.spawned <= 1
    && (c.spawned == 0 || c.pc.LaunchFailed? ==> c.out == Feed([], 0) && c.err == Feed([], 0))
    && (c.pc.Finishing? || (c.task.state.Terminal() && c.task.state != RecoveryRequired) ==> AllTaken(c.out, c.err))
    && (c.task.state == Queued ==> c.pc == Idle && c.spawned == 0)
    && (c.token ==> !c.task.state.Runnable())
    && PcInv(c)
  }

  // --- Every step keeps it -----------------------------------------------------

  lemma {:induction false} SubsequenceSnoc(a: seq<Str>, b: seq<Str>, x: Str)
    requires Subsequence(a, b)
    ensures Subsequence(a, b + [x]) && Subsequence(a + [x], b + [x])
  {
    assert (b + [x])[..|b|] == b;
    assert (a + [x])[..|a|] == a;
  }

  lemma {:induction false} SubsequenceRefl(a: seq<Str>)
    ensures Subsequence(a, a)
  {
    if a != [] {
      SubsequenceRefl(a[..|a|-1]);
    }
  }

  lemma StageAppend(t: Task, body: EventBody)
    ensures StageOf(t.WantsResults(), Append(t, body).log) == After(t.WantsResults(), StageOf(t.WantsResults(), t.log), body)
  {
    assert Append(t, body).log[..|t.log|] == t.log;
  }

  // A state change that the grammar allows keeps the task invariant and every
  // retained text.
  lemma MoveKeeps(t: Task, from: set<RemoteState>, to: RemoteState, exit: Option<int>, note: string)
    requires TaskInv(t)
    requires Moves(t, from) ==>
               var u := Transition(t, from, to, exit, note);
               After(t.WantsResults(), StageNow(t), Moved(to, note)) == StageNow(u) && to.Rank() < t.state.Rank()
    ensures var u := Transition(t, from, to, exit, note);
            TaskInv(u) && u.truncated == t.truncated && (forall s :: Retained(u.log, s) == Retained(t.log, s))
  {
    hide Sound, StageOf, Retained, StateEvents, MaxSeq, Replay, Truncations;
    var u := Transition(t, from, to, exit, note);
    TransitionSound(t, from, to, exit, note);
    if Moves(t, from) {
      MovedReads(t, from, to, exit, note);
    }
  }

  lemma MovedReads(t: Task, from: set<RemoteState>, to: RemoteState, exit: Option<int>, note: string)
    requires Sound(t) && Moves(t, from)
    ensures var u := Transition(t, from, to, exit, note);
            && StageOf(u.WantsResults(), u.log) == After(t.WantsResults(), StageOf(t.WantsResults(), t.log), Moved(to, note))
            && StateEvents(u.log) == StateEvents(t.log) + 1
            && (forall s :: Retained(u.log, s) == Retained(t.log, s))
  {
    AppendReads(t, Moved(to, note));
    StageAppend(t, Moved(to, note));
    assert forall s :: Retained(t.log, s) + [] == Retained(t.log, s);
  }

  // What a state change leaves alone.
  lemma MovedCell(c: Cell, from: set<RemoteState>, to: RemoteState, exit: Option<int>, note: string)
    requires CellInv(c)
    requires Moves(c.task, from) ==>
               var u := Transition(c.task, from, to, exit, note);
               After(c.task.WantsResults(), StageNow(c.task), Moved(to, note)) == StageNow(u) && to.Rank() < c.task.state.Rank()
    ensures var u := Transition(c.task, from, to, exit, note);
            TaskInv(u) && Kept(u, Stdout, c.out) && Kept(u, Stderr, c.err)
  {
    hide Sound, StageOf, Retained, StateEvents, Transition, Subsequence;
    MoveKeeps(c.task, from, to, exit, note);
  }

  lemma ClaimedKeeps(t: Task)
    requires TaskInv(t) && t.state == Queued
    ensures TaskInv(Claimed(t)) && (forall s :: Retained(Claimed(t).log, s) == Retained(t.log, s))
  {
    hide Replay, Truncations, Total;
    ClaimedSound(t);
    AppendedReads(t.(state := Starting), Moved(Starting, NOTE_CLAIMED));
    assert forall s :: Retained(t.log, s) + [] == Retained(t.log, s);
  }

  lemma ClaimKeeps(c: Cell)
    requires CellInv(c) && Enabled(c, Claim)
    ensures CellInv(Do(c, Claim))
  {
    hide TaskInv, Kept, AllTaken, Retained;
    ClaimedKeeps(c.task);
    SameKept(c.task, Claimed(c.task), Stdout, c.out);
    SameKept(c.task, Claimed(c.task), Stderr, c.err);
  }

  // A process that never ran has nothing left to send.
  lemma NothingTaken(c: Cell)
    requires CellInv(c)
    ensures c.spawned == 0 || c.pc.LaunchFailed? ==> AllTaken(c.out, c.err)
  {
    assert Pieces([], true) == [];
  }

  lemma CancelEarlyKeeps(c: Cell)
    requires CellInv(c) && Enabled(c, CancelEarly)
    ensures CellInv(Do(c, CancelEarly))
  {
    hide TaskInv, Kept, AllTaken;
    MoveAllowed(c.task);
    NothingTaken(c);
    MovedCell(c, {Cancelling}, Cancelled, None, NOTE_CANCELLED_EARLY);
  }

  lemma LaunchFailureKeeps(c: Cell, why: string)
    requires CellInv(c) && Enabled(c, RecordLaunchFailure(why))
    ensures CellInv(Do(c, RecordLaunchFailure(why)))
  {
    hide TaskInv, Kept, AllTaken;
    MoveAllowed(c.task);
    NothingTaken(c);
    MovedCell(c, {Starting, Cancelling}, Failed, None, why);
  }

  lemma RunningMoveKeeps(c: Cell, s: Step)
    requires CellInv(c) && Enabled(c, s) && (s.RecordRunning? || s.RecordTimeout?)
    ensures CellInv(Do(c, s))
  {
    hide TaskInv, Kept, AllTaken;
    MoveAllowed(c.task);
    match s
    case RecordRunning => MovedCell(c, {Starting}, Running, None, NOTE_STARTED);
    case RecordTimeout => MovedCell(c, {Running, Starting}, Cancelling, None, NOTE_TIMED_OUT);
  }

  lemma FinishKeeps(c: Cell)
    requires CellInv(c) && Enabled(c, Finish)
    ensures CellInv(Do(c, Finish))
  {
    hide TaskInv, Kept, AllTaken;
    MoveAllowed(c.task);
    MovedCell(c, {Starting, Running, Cancelling}, c.pc.final, ExitCode(c), NoteOf(c.pc.final));
  }

  // The result status a task has before it ends.
  lemma MoveAllowed(t: Task)
    requires TaskInv(t)
    ensures !t.WantsResults() ==> t.result == NotRequested
    ensures !t.state.Terminal() ==> t.result == (if t.WantsResults() then Pending else NotRequested)
  {
  }

  lemma CancelMoveKeeps(c: Cell, s: Step)
    requires CellInv(c) && Enabled(c, s) && (s.CancelQueued? || s.CancelActive?)
    ensures CellInv(Do(c, s))
  {
    hide TaskInv, Kept, AllTaken;
    MoveAllowed(c.task);
    NothingTaken(c);
    if s.CancelQueued? {
      MovedCell(c, {Queued}, Cancelled, None, NOTE_DEQUEUED);
    } else {
      MovedCell(c, {Starting, Running}, Cancelling, None, NOTE_CANCELLING);
    }
  }

  lemma InterruptKeeps(c: Cell)
    requires CellInv(c) && Enabled(c, Interrupt)
    ensures CellInv(Do(c, Interrupt))
  {
    hide TaskInv, Kept, AllTaken;
    MoveAllowed(c.task);
    MovedCell(c, {Starting, Running, Cancelling}, RecoveryRequired, None, RECOVERY_NOTE);
  }

  lemma CollectedKeeps(t: Task, complete: bool, note: string)
    requires TaskInv(t) && t.state.Terminal() && t.result == Pending
    ensures TaskInv(Collected(t, complete, note))
    ensures forall s :: Retained(Collected(t, complete, note).log, s) == Retained(t.log, s)
  {
    hide Sound, StageOf, Retained, StateEvents, Replay, MaxSeq;
    CollectedSound(t, complete, note);
    CollectedReads(t, complete, note);
  }

  lemma CollectedReads(t: Task, complete: bool, note: string)
    requires Sound(t)
    ensures var u := Collected(t, complete, note);
            && StateEvents(u.log) == StateEvents(t.log)
            && StageOf(u.WantsResults(), u.log)
               == After(t.WantsResults(), StageOf(t.WantsResults(), t.log), Results(complete, note))
            && (forall s :: Retained(u.log, s) == Retained(t.log, s))
  {
    var v := t.(result := if complete then Complete else Incomplete);
    AppendedReads(v, Results(complete, note));
    assert forall s :: Retained(t.log, s) + [] == Retained(t.log, s);
  }

  lemma SameKept(t: Task, u: Task, stream: Stream, f: Feed)
    requires Kept(t, stream, f) && Retained(u.log, stream) == Retained(t.log, stream) && u.truncated == t.truncated
    ensures Kept(u, stream, f)
  {
  }

  lemma ResultsKeep(c: Cell, s: Step)
    requires CellInv(c) && Enabled(c, s) && (s.Collect? || s.Resolve?)
    ensures CellInv(Do(c, s))
  {
    hide TaskInv, Kept, Retained, AllTaken;
    var t := c.task;
    MoveAllowed(t);
    if t.state.Terminal() && t.result == Pending {
      var complete := s.Collect? && s.problem.None?;
      var note := if s.Collect? then CollectNote(s.problem) else NOTE_UNRESOLVED;
      var u := Collected(t, complete, note);
      CollectedKeeps(t, complete, note);
      SameKept(t, u, Stdout, c.out);
      SameKept(t, u, Stderr, c.err);
    }
  }

  lemma PrintKeeps(c: Cell, stream: Stream)
    requires CellInv(c) && Enabled(c, Print(stream))
    ensures CellInv(Do(c, Print(stream)))
  {
    hide TaskInv, Kept, Pieces, Output;
    var f := FeedOf(c, stream);
    var text := f.All()[f.taken];
    OutputKeeps(c.task, stream, text);
    PrintKept(c.task, stream, f);
    var other := if stream == Stdout then Stderr else Stdout;
    PrintOther(c.task, stream, text, other, FeedOf(c, other));
  }

  lemma PrintKept(t: Task, stream: Stream, f: Feed)
    requires TaskInv(t) && (t.state == Running || t.state == Cancelling)
    requires Kept(t, stream, f) && f.taken < |f.All()|
    ensures Kept(Output(t, stream, f.All()[f.taken]), stream, f.(taken := f.taken + 1))
  {
    hide TaskInv, Retained, Subsequence, Pieces, Output;
    var g := f.(taken := f.taken + 1);
    var text := f.All()[f.taken];
    OutputKeeps(t, stream, text);
    assert g.Seen() == f.Seen() + [text];
    SubsequenceSnoc(Retained(t.log, stream), f.Seen(), text);
  }

  lemma PrintOther(t: Task, stream: Stream, text: Str, other: Stream, g: Feed)
    requires TaskInv(t) && (t.state == Running || t.state == Cancelling)
    requires Kept(t, other, g) && other != stream
    ensures Kept(Output(t, stream, text), other, g)
  {
    hide TaskInv, Retained, Subsequence, Pieces, Output;
    OutputKeeps(t, stream, text);
  }

  lemma OutputKeeps(t: Task, stream: Stream, text: Str)
    requires TaskInv(t) && (t.state == Running || t.state == Cancelling)
    ensures var u := Output(t, stream, text);
            && TaskInv(u) && u.state == t.state && u.result == t.result && u.request == t.request
            && (t.truncated ==> u.truncated)
            && (forall s | s != stream :: Retained(u.log, s) == Retained(t.log, s))
            && (Retained(u.log, stream) == Retained(t.log, stream) + [text]
                || (u.truncated && Retained(u.log, stream) == Retained(t.log, stream)))
  {
    hide StageOf, Retained, StateEvents, Replay, Truncations, Total, ByteLen;
    OutputSound(t, stream, text);
    OutputReads(t, stream, text);
  }

  lemma OutputReads(t: Task, stream: Stream, text: Str)
    requires Numbered(t.log)
    ensures var u := Output(t, stream, text);
            var fits := t.bytes + ByteLen(text) <= MAX_OUTPUT_BYTES;
            var body := if fits then Printed(stream, text) else OutputTruncated;
            && StateEvents(u.log) == StateEvents(t.log)
            && StageOf(u.WantsResults(), u.log)
               == (if !fits && t.truncated then StageOf(t.WantsResults(), t.log)
                   else After(t.WantsResults(), StageOf(t.WantsResults(), t.log), body))
            && (forall s :: Retained(u.log, s) == Retained(t.log, s) + (if fits && s == stream then [text] else []))
  {
    hide Sound, StageOf, Retained, StateEvents, Replay, Truncations, MaxSeq, ByteLen;
    if t.bytes + ByteLen(text) > MAX_OUTPUT_BYTES {
      if !t.truncated {
        AppendedReads(t, OutputTruncated);
      } else {
        assert forall s :: Retained(t.log, s) + [] == Retained(t.log, s);
      }
    } else {
      AppendedReads(t.(bytes := t.bytes + ByteLen(text)), Printed(stream, text));
    }
  }

  lemma AppendedReads(t: Task, body: EventBody)
    requires Numbered(t.log)
    ensures var u := Append(t, body);
            && StateEvents(u.log) == StateEvents(t.log) + (if body.Moved? then 1 else 0)
            && StageOf(t.WantsResults(), u.log) == After(t.WantsResults(), StageOf(t.WantsResults(), t.log), body)
            && (forall s :: Retained(u.log, s)
                            == Retained(t.log, s) + (if body.Printed? && body.stream == s then [body.text] else []))
  {
    AppendReads(t, body);
    StageAppend(t, body);
  }

  lemma LaunchKeeps(c: Cell, s: Step)
    requires CellInv(c) && Enabled(c, s) && (s.Launch? || s.LaunchFails?)
    ensures CellInv(Do(c, s))
  {
    hide TaskInv, Retained, Pieces;
    assert c.out.Seen() == [] && c.err.Seen() == [];
    NothingTaken(c);
    if s.Launch? {
      assert Feed(s.out, 0).Seen() == [] && Feed(s.err, 0).Seen() == [];
    }
  }

  // Steps that leave the row alone.
  lemma RunnerStepKeeps(c: Cell, s: Step)
    requires CellInv(c) && Enabled(c, s)
    requires s.Register? || s.Join? || s.Crash? || (s.CancelToken? && !c.task.state.Runnable())
    ensures CellInv(Do(c, s))
  {
    hide TaskInv, Kept, AllTaken;
  }

  lemma QuietKeeps(c: Cell, s: Step)
    requires CellInv(c) && Enabled(c, s)
    requires s.Check? || s.SeeToken? || s.PassDeadline? || s.Exit?
    ensures CellInv(Do(c, s))
  {
    hide TaskInv, Kept, AllTaken;
  }

  lemma CloseKeeps(c: Cell)
    requires CellInv(c) && Enabled(c, CloseOutput)
    ensures CellInv(Do(c, CloseOutput))
  {
    hide TaskInv, Kept, Pieces;
  }

  lemma EndKeeps(c: Cell, s: Step)
    requires CellInv(c) && Enabled(c, s) && (s.Fail? || s.Panic? || s.Drop?)
    ensures CellInv(Do(c, s))
  {
    hide TaskInv, Kept, AllTaken, PcInv, Do, Enabled;
    MoveAllowed(c.task);
    EndsDone(c, s);
  }

  lemma EndsDone(c: Cell, s: Step)
    requires PcInv(c) && Enabled(c, s) && (s.Fail? || s.Panic? || s.Drop?)
    requires !c.task.WantsResults() ==> c.task.result == NotRequested
    ensures var d := Do(c, s);
            && PcInv(d) && d == c.(pc := d.pc, torn := d.torn) && (d.pc.Ending? || d.pc.Ended? || d.pc.Gone?)
            && !c.pc.Idle?
  {
  }

  lemma UnregisterKeeps(c: Cell)
    requires CellInv(c) && Enabled(c, Unregister)
    ensures CellInv(Do(c, Unregister))
  {
    hide TaskInv, Kept, AllTaken;
  }

  // A token is only cancelled after the state change that precedes it.
  lemma StepKeeps(c: Cell, s: Step)
    requires CellInv(c) && Enabled(c, s)
    requires s.CancelToken? ==> !c.task.state.Runnable()
    ensures CellInv(Do(c, s))
  {
    hide CellInv, Do, Enabled;
    match s
    case Claim => ClaimKeeps(c);
    case CancelEarly => CancelEarlyKeeps(c);
    case RecordLaunchFailure(why) => LaunchFailureKeeps(c, why);
    case RecordRunning => RunningMoveKeeps(c, s);
    case RecordTimeout => RunningMoveKeeps(c, s);
    case Finish => FinishKeeps(c);
    case CancelQueued => CancelMoveKeeps(c, s);
    case CancelActive => CancelMoveKeeps(c, s);
    case Interrupt => InterruptKeeps(c);
    case Collect(_) => ResultsKeep(c, s);
    case Resolve => ResultsKeep(c, s);
    case Print(stream) => PrintKeeps(c, stream);
    case Launch(_, _) => LaunchKeeps(c, s);
    case LaunchFails(_) => LaunchKeeps(c, s);
    case Register => RunnerStepKeeps(c, s);
    case Join => RunnerStepKeeps(c, s);
    case Crash => RunnerStepKeeps(c, s);
    case CancelToken => RunnerStepKeeps(c, s);
    case CloseOutput => CloseKeeps(c);
    case Unregister => UnregisterKeeps(c);
    case Fail => EndKeeps(c, s);
    case Panic => EndKeeps(c, s);
    case Drop => EndKeeps(c, s);
    case _ => QuietKeeps(c, s);
  }

  // --- What no step undoes --------------------------------------------------

  // The log only grows, the identity of a task never changes, a state change
  // goes down in rank, and a terminal state stays.
  ghost predicate Forward(t: Task, u: Task) {
    && t.log <= u.log
    && u.controller == t.controller && u.request == t.request && u.createdAt == t.createdAt
    && (u.state != t.state ==> u.state.Rank() < t.state.Rank())
    && StateEvents(u.log) + u.state.Rank() <= StateEvents(t.log) + t.state.Rank()
  }

  lemma ForwardMeans(t: Task, u: Task)
    requires Forward(t, u)
    ensures t.state.Terminal() ==> u.state == t.state
    ensures !t.state.Runnable() ==> !u.state.Runnable()
    ensures u.state == Queued ==> t.state == Queued
    ensures StateEvents(u.log) - StateEvents(t.log) <= t.state.Rank() - u.state.Rank()
  {
  }

  lemma TransitionForward(t: Task, from: set<RemoteState>, to: RemoteState, exit: Option<int>, note: string)
    requires Moves(t, from) ==> to.Rank() < t.state.Rank()
    ensures Forward(t, Transition(t, from, to, exit, note))
  {
    if Moves(t, from) {
      StateEventsSnoc(t.log, Transition(t, from, to, exit, note).log);
    }
  }

  lemma StateEventsSnoc(log: seq<Event>, next: seq<Event>)
    requires |next| == |log| + 1 && log == next[..|log|]
    ensures StateEvents(next) == StateEvents(log) + (if next[|log|].body.Moved? then 1 else 0)
  {
  }

  lemma OutputForward(t: Task, stream: Stream, text: Str)
    ensures Forward(t, Output(t, stream, text))
  {
    hide ByteLen, MaxSeq, StateEvents;
    var u := Output(t, stream, text);
    if |u.log| > |t.log| {
      StateEventsSnoc(t.log, u.log);
    }
  }

  lemma ExecutorForward(c: Cell, s: Step)
    requires CellInv(c) && Enabled(c, s) && ExecutorStep(s)
    ensures Forward(c.task, Do(c, s).task)
  {
    hide TaskInv, Kept, AllTaken, Transition, Output, Pieces, Collected, StateEvents;
    match s
    case Collect(problem) => CollectedForward(c.task, problem.None?, CollectNote(problem));
    case CancelEarly => TransitionForward(c.task, {Cancelling}, Cancelled, None, NOTE_CANCELLED_EARLY);
    case RecordLaunchFailure(why) => TransitionForward(c.task, {Starting, Cancelling}, Failed, None, why);
    case RecordRunning => TransitionForward(c.task, {Starting}, Running, None, NOTE_STARTED);
    case RecordTimeout => TransitionForward(c.task, {Running, Starting}, Cancelling, None, NOTE_TIMED_OUT);
    case Finish => TransitionForward(c.task, {Starting, Running, Cancelling}, c.pc.final, ExitCode(c), NoteOf(c.pc.final));
    case Print(stream) =>
      OutputForward(c.task, stream, FeedOf(c, stream).All()[FeedOf(c, stream).taken]);
    case _ =>
  }

  lemma CollectedForward(t: Task, complete: bool, note: string)
    ensures Forward(t, Collected(t, complete, note))
  {
    StateEventsSnoc(t.log, Collected(t, complete, note).log);
  }

  lemma ClaimedForward(t: Task)
    requires t.state == Queued
    ensures Forward(t, Claimed(t))
  {
    StateEventsSnoc(t.log, Claimed(t).log);
  }

  lemma StepForward(c: Cell, s: Step)
    requires CellInv(c) && Enabled(c, s)
    ensures Forward(c.task, Do(c, s).task)
  {
    hide TaskInv, Kept, AllTaken, Transition, Output, Pieces, PcInv, Collected, Claimed, StateEvents;
    match s
    case CancelQueued => TransitionForward(c.task, {Queued}, Cancelled, None, NOTE_DEQUEUED);
    case CancelActive => TransitionForward(c.task, {Starting, Running}, Cancelling, None, NOTE_CANCELLING);
    case Interrupt => TransitionForward(c.task, {Starting, Running, Cancelling}, RecoveryRequired, None, RECOVERY_NOTE);
    case Resolve => CollectedForward(c.task, false, NOTE_UNRESOLVED);
    case Claim => ClaimedForward(c.task);
    case _ => if ExecutorStep(s) { ExecutorForward(c, s); }
  }

  lemma StepMoves(c: Cell, s: Step)
    requires CellInv(c) && Enabled(c, s)
    ensures var d := Do(c, s);
            && Forward(c.task, d.task)
            && c.spawned <= d.spawned
            && (d.task.state.Active() && !c.task.state.Active() ==> s.Claim?)
  {
    StepForward(c, s);
    SpawnsGrow(c, s);
    if !c.task.state.Active() && !s.Claim? {
      StaysInactive(c, s);
    }
    hide *;
  }

  lemma SpawnsGrow(c: Cell, s: Step)
    requires Enabled(c, s)
    ensures c.spawned <= Do(c, s).spawned
  {
    hide Transition, Output, Collected, Claimed, Interrupted, Unresolved, Pieces;
  }

  lemma StaysInactive(c: Cell, s: Step)
    requires Enabled(c, s) && !c.task.state.Active() && !s.Claim?
    ensures !Do(c, s).task.state.Active()
  {
    var t := c.task;
    hide Transition, Output, Collected, Claimed, Interrupted, Unresolved, Pieces;
    match s
    case CancelEarly => MoveStaysInactive(t, {Cancelling}, Cancelled, None, NOTE_CANCELLED_EARLY);
    case RecordLaunchFailure(why) => MoveStaysInactive(t, {Starting, Cancelling}, Failed, None, why);
    case RecordRunning => MoveStaysInactive(t, {Starting}, Running, None, NOTE_STARTED);
    case RecordTimeout => MoveStaysInactive(t, {Running, Starting}, Cancelling, None, NOTE_TIMED_OUT);
    case Finish => MoveStaysInactive(t, {Starting, Running, Cancelling}, c.pc.final, ExitCode(c), NoteOf(c.pc.final));
    case _ => OthersStayInactive(c, s);
  }

  lemma OthersStayInactive(c: Cell, s: Step)
    requires Enabled(c, s) && !c.task.state.Active() && !s.Claim?
    requires !s.CancelEarly? && !s.RecordLaunchFailure? && !s.RecordRunning? && !s.RecordTimeout? && !s.Finish?
    ensures !Do(c, s).task.state.Active()
  {
    var t := c.task;
    InterruptedIs(t);
    hide Transition, Output, Collected, Claimed, Interrupted, Pieces;
    match s
    case CancelQueued => MoveStaysInactive(t, {Queued}, Cancelled, None, NOTE_DEQUEUED);
    case CancelActive => MoveStaysInactive(t, {Starting, Running}, Cancelling, None, NOTE_CANCELLING);
    case Interrupt => MoveStaysInactive(t, {Starting, Running, Cancelling}, RecoveryRequired, None, RECOVERY_NOTE);
    case Print(stream) => OutputSameState(t, stream, FeedOf(c, stream).All()[FeedOf(c, stream).taken]);
    case Collect(problem) => CollectedSameState(t, problem.None?, CollectNote(problem));
    case Resolve => CollectedSameState(t, false, NOTE_UNRESOLVED);
    case _ =>
  }

  lemma MoveStaysInactive(t: Task, from: set<RemoteState>, to: RemoteState, exit: Option<int>, note: string)
    requires !t.state.Active() && (Queued in from ==> !to.Active())
    ensures !Transition(t, from, to, exit, note).state.Active()
  {
  }

  lemma CollectedSameState(t: Task, complete: bool, note: string)
    ensures Collected(t, complete, note).state == t.state
  {
  }

  ghost predicate Counted(t: Task, u: Task) {
    StateEvents(u.log) == StateEvents(t.log) + if u.state != t.state then 1 else 0
  }

  // A step adds one state event if it changes the state, and none otherwise.
  lemma StepCounts(c: Cell, s: Step)
    requires CellInv(c) && Enabled(c, s)
    ensures Counted(c.task, Do(c, s).task)
  {
    hide CellInv, Counted, Do, Enabled, Sound;
    Countable(c);
    match s
    case Claim => ClaimCounts(c);
    case Collect(_) => ResultCounts(c, s);
    case Resolve => ResultCounts(c, s);
    case Print(_) => PrintCounts(c, s);
    case CancelEarly => MoveCounts(c, s);
    case RecordLaunchFailure(_) => MoveCounts(c, s);
    case RecordRunning => MoveCounts(c, s);
    case RecordTimeout => MoveCounts(c, s);
    case Finish => MoveCounts(c, s);
    case CancelQueued => OutsideCounts(c, s);
    case CancelActive => OutsideCounts(c, s);
    case Interrupt => OutsideCounts(c, s);
    case _ => QuietCounts(c, s);
  }

  lemma Countable(c: Cell)
    requires CellInv(c)
    ensures Sound(c.task) && (c.pc.Finishing? ==> c.pc.final.Terminal())
  {
    hide Sound, Kept, AllTaken, StageOf, StateEvents;
  }

  lemma ClaimCounts(c: Cell)
    requires Sound(c.task) && Enabled(c, Claim)
    ensures Counted(c.task, Do(c, Claim).task)
  {
    var t := c.task;
    NumbersOf(t);
    AppendReads(t.(state := Starting), Moved(Starting, NOTE_CLAIMED));
    hide Sound, StateEvents, Retained, Replay, Truncations, Append, MaxSeq;
    assert Claimed(t) == Append(t.(state := Starting), Moved(Starting, NOTE_CLAIMED));
  }

  lemma NumbersOf(t: Task)
    requires Sound(t)
    ensures Numbered(t.log)
  {
    hide Replay, Retained, Total, Truncations;
  }

  lemma ResultCounts(c: Cell, s: Step)
    requires Sound(c.task) && Enabled(c, s) && (s.Collect? || s.Resolve?)
    ensures Counted(c.task, Do(c, s).task)
  {
    hide Sound, StateEvents, MaxSeq;
    CollectedReads(c.task, s.Collect? && s.problem.None?, if s.Collect? then CollectNote(s.problem) else NOTE_UNRESOLVED);
  }

  lemma PrintCounts(c: Cell, s: Step)
    requires Sound(c.task) && Enabled(c, s) && s.Print?
    ensures Counted(c.task, Do(c, s).task)
  {
    hide StateEvents, Pieces, Output, Sound, StageOf, Retained, ByteLen;
    NumbersOf(c.task);
    var text := FeedOf(c, s.stream).All()[FeedOf(c, s.stream).taken];
    OutputReads(c.task, s.stream, text);
    OutputSameState(c.task, s.stream, text);
  }

  lemma MoveCounts(c: Cell, s: Step)
    requires Sound(c.task) && Enabled(c, s) && (c.pc.Finishing? ==> c.pc.final.Terminal())
    requires s.CancelEarly? || s.RecordLaunchFailure? || s.RecordRunning? || s.RecordTimeout? || s.Finish?
    ensures Counted(c.task, Do(c, s).task)
  {
    var t := c.task;
    hide Sound, Counted, Transition;
    match s
    case CancelEarly => TransitionCounts(t, {Cancelling}, Cancelled, None, NOTE_CANCELLED_EARLY);
    case RecordLaunchFailure(why) => TransitionCounts(t, {Starting, Cancelling}, Failed, None, why);
    case RecordRunning => TransitionCounts(t, {Starting}, Running, None, NOTE_STARTED);
    case RecordTimeout => TransitionCounts(t, {Running, Starting}, Cancelling, None, NOTE_TIMED_OUT);
    case Finish => TransitionCounts(t, {Starting, Running, Cancelling}, c.pc.final, ExitCode(c), NoteOf(c.pc.final));
    case _ =>
  }

  lemma OutsideCounts(c: Cell, s: Step)
    requires Sound(c.task) && Enabled(c, s) && (s.CancelQueued? || s.CancelActive? || s.Interrupt?)
    ensures Counted(c.task, Do(c, s).task)
  {
    var t := c.task;
    InterruptedIs(t);
    hide Sound, Counted, Transition, Interrupted;
    match s
    case CancelQueued => TransitionCounts(t, {Queued}, Cancelled, None, NOTE_DEQUEUED);
    case CancelActive => TransitionCounts(t, {Starting, Running}, Cancelling, None, NOTE_CANCELLING);
    case Interrupt => TransitionCounts(t, {Starting, Running, Cancelling}, RecoveryRequired, None, RECOVERY_NOTE);
    case _ =>
  }

  lemma QuietCounts(c: Cell, s: Step)
    requires Enabled(c, s) && !s.Claim? && !s.Collect? && !s.Resolve? && !s.Print?
    requires !s.CancelEarly? && !s.RecordLaunchFailure? && !s.RecordRunning? && !s.RecordTimeout? && !s.Finish?
    requires !s.CancelQueued? && !s.CancelActive? && !s.Interrupt?
    ensures Counted(c.task, Do(c, s).task)
  {
    hide StateEvents;
  }

  lemma TransitionCounts(t: Task, from: set<RemoteState>, to: RemoteState, exit: Option<int>, note: string)
    requires Sound(t) && to !in from
    ensures Counted(t, Transition(t, from, to, exit, note))
  {
    if Moves(t, from) {
      MovedReads(t, from, to, exit, note);
    }
  }

  lemma OutputSameState(t: Task, stream: Stream, text: Str)
    ensures Output(t, stream, text).state == t.state
  {
    hide ByteLen, MaxSeq;
  }

  // A finished cancel call has had its effect: the task has ended, or it is being
  // cancelled and its executor will see that: it has not read the task yet, or its
  // token is cancelled, or it has already given up.
  ghost predicate Delivered(c: Cell) {
    c.task.state.Terminal()
    || (c.task.state == Cancelling && Heard(c))
  }

  lemma DeliveredStays(c: Cell, s: Step)
    requires CellInv(c) && Delivered(c) && Enabled(c, s) && !s.Crash?
    ensures Delivered(Do(c, s))
  {
    StepForward(c, s);
    ForwardMeans(c.task, Do(c, s).task);
    if c.task.state == Cancelling {
      HeardStays(c, s);
    }
    hide CellInv, Forward, Do, Enabled;
  }

  // The executor has yet to read the task, or will see its token, or is done.
  predicate Heard(c: Cell) {
    c.token || c.pc.Picked? || c.pc.Begun? || c.pc.EarlyCancel? || c.pc.Ending? || c.pc.Ended? || c.pc.Gone?
  }

  lemma HeardStays(c: Cell, s: Step)
    requires Enabled(c, s) && c.task.state == Cancelling && Heard(c) && !s.Crash?
    ensures Heard(Do(c, s))
  {
    hide Transition, Output, Collected, Claimed, Interrupted, Unresolved, Pieces;
  }

  // Looking up the token after the state change delivers the cancellation.
  lemma TokenDelivers(c: Cell)
    requires PcInv(c) && !c.task.state.Runnable() && (c.pc.Idle? ==> c.task.state.Terminal())
    ensures Delivered(if c.registered then c.(token := true) else c)
  {
  }

  lemma PcInvOf(c: Cell)
    requires CellInv(c)
    ensures PcInv(c)
  {
    hide TaskInv, Kept, AllTaken, PcInv;
  }

  // A task cancelled before its executor looked never starts a process.
  lemma EarlyCancellationNeverSpawns(c: Cell, s: Step)
    requires CellInv(c) && Enabled(c, s)
    requires c.task.state == Cancelling && (c.pc.Picked? || c.pc.Begun? || c.pc.EarlyCancel?)
    ensures var d := Do(c, s);
            && d.spawned == 0
            && (d.task.state == Cancelling && !s.Crash? && !s.Fail? && !s.Panic? && !s.Drop? ==>
                  d.pc.Picked? || d.pc.Begun? || d.pc.EarlyCancel?)
  {
    hide TaskInv, Kept, AllTaken;
  }

  // An end before the process exists settles the result only if nobody cancelled;
  // otherwise it stays pending until the agent restarts.
  lemma EarlyEndLeavesPending(c: Cell, s: Step)
    requires CellInv(c) && Enabled(c, s) && (s.CancelEarly? || s.RecordLaunchFailure?)
    ensures var t := Do(c, s).task;
            && t.state.Terminal()
            && (t.result == Pending <==> c.task.WantsResults() && c.task.state == Cancelling)
            && Unresolved(t).result != Pending
  {
    hide Sound, StageOf, StateEvents, Kept, AllTaken;
  }

  // --- What the invariant says about a log ------------------------------------

  lemma {:induction false} PrefixesFit(wants: bool, log: seq<Event>, k: nat)
    requires StageOf(wants, log) != Wrong && k <= |log|
    ensures StageOf(wants, log[..k]) != Wrong
    decreases |log|
  {
    if k == |log| {
      assert log[..k] == log;
    } else {
      var head := log[..|log|-1];
      assert log[..k] == head[..k];
      PrefixesFit(wants, head, k);
    }
  }

  lemma {:induction false} LittleAfterTheEnd(wants: bool, log: seq<Event>, k: nat)
    requires StageOf(wants, log) != Wrong && k <= |log| && StageOf(wants, log[..k]).Over?
    ensures |log| == k || (|log| == k + 1 && log[k].body.Results? && StageOf(wants, log[..k]) == Over(true))
    ensures StageOf(wants, log).Over?
    decreases |log|
  {
    if k == |log| {
      assert log[..k] == log;
    } else {
      var head := log[..|log|-1];
      assert log[..k] == head[..k];
      PrefixesFit(wants, log, |log| - 1);
      LittleAfterTheEnd(wants, head, k);
      if |head| == k {
        assert head[..k] == head;
      }
    }
  }

  lemma FirstEvent(t: Task)
    requires TaskInv(t)
    ensures t.log[0] == Event(1, t.log[0].body) && t.log[0].body.Moved? && t.log[0].body.to == Queued
    ensures exists note :: t.log[0] == Event(1, Moved(Queued, note))
  {
    assert t.log != [] && t.log[0].number == 1;
    PrefixesFit(t.WantsResults(), t.log, 1);
    hide Sound, StateEvents, TaskInv, StageNow;
    var first := t.log[..1];
    assert first[..0] == [] && first[0] == t.log[0];
    assert StageOf(t.WantsResults(), first) == After(t.WantsResults(), Nothing, first[0].body);
    assert t.log[0] == Event(1, Moved(Queued, t.log[0].body.note));
  }

  lemma OutputEvent(wants: bool, log: seq<Event>, i: nat)
    requires StageOf(wants, log) != Wrong && i < |log| && (log[i].body.Printed? || log[i].body.OutputTruncated?)
    ensures StageOf(wants, log[..i]) in {InRun, InCancel}
  {
    PrefixesFit(wants, log, i + 1);
    assert log[..i+1][..i] == log[..i];
  }

  // The order of a task's events.
  lemma LogGrammar(t: Task)
    requires TaskInv(t)
    ensures t.log != [] && exists note :: t.log[0] == Event(1, Moved(Queued, note))
    // output only while the process may run
    ensures forall i | 0 <= i < |t.log| && (t.log[i].body.Printed? || t.log[i].body.OutputTruncated?) ::
              StageOf(t.WantsResults(), t.log[..i]) in {InRun, InCancel}
    // after a terminal event at most one results event, and none after recovery
    ensures forall i | 0 <= i < |t.log| && t.log[i].body.Moved? && t.log[i].body.to.Terminal() ::
              && t.state == t.log[i].body.to
              && |t.log| <= i + 2
              && (|t.log| == i + 2 ==> t.log[i+1].body.Results? && t.state != RecoveryRequired)
    ensures StateEvents(t.log) <= 5
  {
    hide StageOf;
    var wants := t.WantsResults();
    FirstEvent(t);
    forall i | 0 <= i < |t.log| && (t.log[i].body.Printed? || t.log[i].body.OutputTruncated?)
      ensures StageOf(wants, t.log[..i]) in {InRun, InCancel}
    {
      OutputEvent(wants, t.log, i);
    }
    forall i | 0 <= i < |t.log| && t.log[i].body.Moved? && t.log[i].body.to.Terminal()
      ensures t.state == t.log[i].body.to && |t.log| <= i + 2
              && (|t.log| == i + 2 ==> t.log[i+1].body.Results? && t.state != RecoveryRequired)
    {
      TerminalEvent(t, i);
    }
  }

  lemma TerminalEvent(t: Task, i: nat)
    requires TaskInv(t) && i < |t.log| && t.log[i].body.Moved? && t.log[i].body.to.Terminal()
    ensures t.state == t.log[i].body.to && |t.log| <= i + 2
    ensures |t.log| == i + 2 ==> t.log[i+1].body.Results? && t.state != RecoveryRequired
  {
    var wants := t.WantsResults();
    TerminalStage(wants, t.log, i);
    LittleAfterTheEnd(wants, t.log, i + 1);
    TerminalReplay(wants, t.log, i);
  }

  lemma TerminalStage(wants: bool, log: seq<Event>, i: nat)
    requires StageOf(wants, log) != Wrong && i < |log| && log[i].body.Moved? && log[i].body.to.Terminal()
    ensures StageOf(wants, log[..i+1]).Over?
    ensures log[i].body.to == RecoveryRequired ==> StageOf(wants, log[..i+1]) == Over(false)
  {
    PrefixesFit(wants, log, i + 1);
    assert log[..i+1][..i] == log[..i];
  }

  lemma TerminalReplay(wants: bool, log: seq<Event>, i: nat)
    requires i < |log| <= i + 2 && log[i].body.Moved?
    requires |log| == i + 2 ==> log[i+1].body.Results?
    ensures Replay(wants, log).state == log[i].body.to
  {
    assert log[..i+1][..i] == log[..i];
    assert Replay(wants, log[..i+1]).state == log[i].body.to;
    if |log| == i + 2 {
      assert log[..|log|-1] == log[..i+1];
    } else {
      assert log[..i+1] == log;
    }
  }

  // What the store keeps of a process that was seen through to its end: of each
  // stream a subsequence of the pieces of what it wrote, all of them unless the
  // output was truncated, within the budget, with one truncation event at most.
  lemma OutputKept(c: Cell)
    requires CellInv(c)
    ensures Subsequence(Retained(c.task.log, Stdout), c.out.Seen()) && Subsequence(Retained(c.task.log, Stderr), c.err.Seen())
    ensures c.task.bytes == Total(Retained(c.task.log, Stdout)) + Total(Retained(c.task.log, Stderr)) <= MAX_OUTPUT_BYTES
    ensures Truncations(c.task.log) == if c.task.truncated then 1 else 0
    ensures c.task.state.Terminal() && c.task.state != RecoveryRequired ==>
              && Subsequence(Retained(c.task.log, Stdout), Pieces(c.out.bytes, true))
              && Subsequence(Retained(c.task.log, Stderr), Pieces(c.err.bytes, true))
              && (!c.task.truncated ==>
                    && Retained(c.task.log, Stdout) == Pieces(c.out.bytes, true)
                    && Retained(c.task.log, Stderr) == Pieces(c.err.bytes, true))
  {
    hide Pieces, Retained, Subsequence, Total, Truncations;
    if AllTaken(c.out, c.err) {
      assert c.out.Seen() == c.out.All();
      assert c.err.Seen() == c.err.All();
    }
  }

  lemma {:induction false} SubsequenceHas(a: seq<Str>, b: seq<Str>, k: nat)
    requires Subsequence(a, b) && k < |a|
    ensures a[k] in b
    decreases |b|
  {
    var front := b[..|b|-1];
    if Subsequence(a, front) {
      SubsequenceHas(a, front, k);
    } else if k < |a| - 1 {
      SubsequenceHas(a[..|a|-1], front, k);
    }
  }

  lemma {:induction false} RetainedHas(log: seq<Event>, i: nat)
    requires i < |log| && log[i].body.Printed?
    ensures log[i].body.text in Retained(log, log[i].body.stream)
  {
    if i < |log| - 1 {
      RetainedHas(log[..|log|-1], i);
    }
  }

  // Every text a log keeps of the output is one piece of a reader.
  lemma OutputTextsAreShort(c: Cell, i: nat)
    requires CellInv(c) && i < |c.task.log| && c.task.log[i].body.Printed?
    ensures 1 <= ByteLen(c.task.log[i].body.text) <= LINE_LIMIT + 3
  {
    var stream, text := c.task.log[i].body.stream, c.task.log[i].body.text;
    var f := FeedOf(c, stream);
    hide Pieces, Retained, Subsequence, IsSplit, CellInv;
    OutputKept(c);
    RetainedHas(c.task.log, i);
    var retained := Retained(c.task.log, stream);
    var k :| 0 <= k < |retained| && retained[k] == text;
    SeenValid(c, stream);
    SubsequenceHas(retained, f.Seen(), k);
    var j :| 0 <= j < |f.All()| && f.All()[j] == text;
    PiecesSplit(f.bytes);
    SplitBounds(f.All(), Visible(0, Decode(f.bytes, true).chars), j);
  }

  lemma SeenValid(c: Cell, stream: Stream)
    requires CellInv(c)
    ensures FeedOf(c, stream).Valid()
  {
  }
}
