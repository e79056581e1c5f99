// What a task retains of the two streams of its process, in every reachable state.
module Outputs {
  import opened Text
  import Pipe
  import opened Tasks
  import opened Retention
  import opened Engine
  import opened System
  import opened Safety
  import Theorems

  // The pieces recorded so far are those taken from the two readers, and the row is
  // what recording them makes of it.
  ghost predicate Recalls(c: Cell) {
    && c.out.Valid() && c.err.Valid()
    && TextsOf(c.printed, Stdout) == c.out.Seen() && TextsOf(c.printed, Stderr) == c.err.Seen()
    && Recorded(c.task, c.printed)
  }

  // --- One step of one task ---------------------------------------------------------

  lemma PrintRecalls(c: Cell, stream: Stream)
    requires Recalls(c) && Enabled(c, Print(stream))
    ensures Recalls(Do(c, Print(stream)))
  {
    hide Pipe.Pieces, Output, Recorded, TextsOf;
    var f := FeedOf(c, stream);
    var piece := Piece(stream, f.All()[f.taken]);
    assert f.(taken := f.taken + 1).Seen() == f.Seen() + [piece.text];
    RecordedOne(c.task, c.printed, piece);
    TextsSnoc(c.printed, piece, Stdout);
    TextsSnoc(c.printed, piece, Stderr);
  }

  // The row changes in nothing that has to do with output.
  ghost predicate Silent(t: Task, u: Task) {
    && u.bytes == t.bytes && u.truncated == t.truncated
    && (u.log == t.log || (|u.log| == |t.log| + 1 && u.log[..|t.log|] == t.log && !u.log[|t.log|].body.Printed?))
  }

  lemma MoveSilent(t: Task, from: set<RemoteState>, to: RemoteState, exit: Option<int>, note: string)
    ensures Silent(t, Transition(t, from, to, exit, note))
  {
  }

  lemma CollectedSilent(t: Task, complete: bool, note: string)
    ensures Silent(t, Collected(t, complete, note))
  {
  }

  lemma ExecutorSilent(c: Cell, s: Step)
    requires Enabled(c, s) && ExecutorStep(s) && !s.Print?
    ensures Silent(c.task, Do(c, s).task)
  {
    hide Transition, Collected;
    match s
    case CancelEarly => MoveSilent(c.task, {Cancelling}, Cancelled, None, NOTE_CANCELLED_EARLY);
    case RecordLaunchFailure(why) => MoveSilent(c.task, {Starting, Cancelling}, Failed, None, why);
    case RecordRunning => MoveSilent(c.task, {Starting}, Running, None, NOTE_STARTED);
    case RecordTimeout => MoveSilent(c.task, {Running, Starting}, Cancelling, None, NOTE_TIMED_OUT);
    case Finish => MoveSilent(c.task, {Starting, Running, Cancelling}, c.pc.final, ExitCode(c), NoteOf(c.pc.final));
    case Collect(problem) => CollectedSilent(c.task, problem.None?, CollectNote(problem));
    case _ =>
  }

  lemma StepSilent(c: Cell, s: Step)
    requires Enabled(c, s) && !s.Print?
    ensures Silent(c.task, Do(c, s).task)
  {
    hide Transition, Collected;
    match s
    case CancelQueued => MoveSilent(c.task, {Queued}, Cancelled, None, NOTE_DEQUEUED);
    case CancelActive => MoveSilent(c.task, {Starting, Running}, Cancelling, None, NOTE_CANCELLING);
    case Interrupt => MoveSilent(c.task, {Starting, Running, Cancelling}, RecoveryRequired, None, RECOVERY_NOTE);
    case Resolve => CollectedSilent(c.task, false, NOTE_UNRESOLVED);
    case _ => if ExecutorStep(s) { ExecutorSilent(c, s); }
  }

  lemma SilentRetains(t: Task, u: Task, pieces: seq<Piece>)
    requires Silent(t, u) && Recorded(t, pieces)
    ensures Recorded(u, pieces)
  {
    hide Keep, Size, TextsOf;
    assert forall s :: Retained(t.log, s) + [] == Retained(t.log, s);
  }

  // Only a launch replaces the feeds, and before it nothing has been taken from them.
  lemma FeedsStay(c: Cell, s: Step)
    requires Enabled(c, s) && !s.Print? && !s.Launch?
    ensures SameFeeds(c, Do(c, s))
  {
    if ExecutorStep(s) {
      ExecutorSameFeeds(c, s);
    } else {
      OtherSameFeeds(c, s);
    }
    hide *;
  }

  ghost predicate SameFeeds(c: Cell, d: Cell) {
    d.printed == c.printed && d.out == c.out && d.err == c.err
  }

  lemma ExecutorSameFeeds(c: Cell, s: Step)
    requires Enabled(c, s) && ExecutorStep(s) && !s.Print? && !s.Launch?
    ensures SameFeeds(c, Do(c, s))
  {
    hide Transition, Collected, Claimed, Interrupted, Unresolved, Output, FeedOf, FinalState;
  }

  lemma OtherSameFeeds(c: Cell, s: Step)
    requires Enabled(c, s) && !ExecutorStep(s)
    ensures SameFeeds(c, Do(c, s))
  {
    hide Transition, Collected, Claimed, Interrupted, Unresolved, Output;
  }

  lemma NothingSeen(c: Cell)
    requires CellInv(c) && c.pc.Launching?
    ensures c.out == Feed([], 0) && c.err == Feed([], 0)
  {
    hide TaskInv, Kept, AllTaken;
  }

  lemma LaunchRecalls(c: Cell, s: Step)
    requires Recalls(c) && Enabled(c, s) && s.Launch? && c.out == Feed([], 0) && c.err == Feed([], 0)
    ensures Recalls(Do(c, s))
  {
    hide Recorded, TextsOf, Pipe.Pieces;
    assert c.out.Seen() == [] == Feed(s.out, 0).Seen() && c.err.Seen() == [] == Feed(s.err, 0).Seen();
  }

  lemma StepRecalls(c: Cell, s: Step)
    requires CellInv(c) && Enabled(c, s) && Recalls(c)
    ensures Recalls(Do(c, s))
  {
    hide CellInv, Do, Recorded, Silent, TextsOf;
    if s.Print? {
      PrintRecalls(c, s.stream);
    } else if s.Launch? {
      assert c.pc.Launching?;
      NothingSeen(c);
      LaunchRecalls(c, s);
    } else {
      hide Enabled;
      FeedsStay(c, s);
      StepSilent(c, s);
      SilentRetains(c.task, Do(c, s).task, c.printed);
    }
  }

  lemma NewRecalls(controller: int, request: Request, at: int)
    ensures Recalls(NewCell(Accepted(controller, request, at)))
  {
    var t := Accepted(controller, request, at);
    assert t.log[..0] == [];
    assert forall s :: Retained(t.log, s) == [];
  }

  // --- Every reachable state ----------------------------------------------------------

  ghost predicate AllRecall(s: Sys) {
    forall id | id in s.cells :: Recalls(s.cells[id])
  }

  lemma NextRecalls(s: Sys, a: Action)
    requires Inv(s) && Next(s, a).Some? && AllRecall(s)
    ensures AllRecall(Next(s, a).value)
  {
    hide Inv, Recalls, Do, Enabled, Next;
    var t := Next(s, a).value;
    forall id | id in t.cells
      ensures Recalls(t.cells[id])
    {
      if id in s.cells {
        var step := CellStepOf(s, a, id);
        Theorems.CellOfInv(s, id);
        if step.Some? {
          StepRecalls(s.cells[id], step.value);
        }
      } else {
        Theorems.CreatedIs(s, a, id);
        NewRecalls(s.calls[a.c].controller, s.calls[a.c].request, a.submit.at);
      }
    }
  }

  lemma {:induction false} RunRecalls(s: Sys, actions: seq<Action>)
    requires Inv(s) && Run(s, actions).Some? && AllRecall(s)
    ensures AllRecall(Run(s, actions).value)
    decreases |actions|
  {
    hide Inv, Next, AllRecall;
    if actions != [] {
      NextKeeps(s, actions[0]);
      NextRecalls(s, actions[0]);
      RunRecalls(Next(s, actions[0]).value, actions[1..]);
    }
  }

  // In every reachable state the pieces recorded of a task are an interleaving of what
  // its two readers have sent, in order, and the row is what recording them in this
  // order makes of it: of both streams together the pieces that fit, the truncation
  // flag if one did not.
  lemma RecordedInOrder(s: Sys, id: int)
    requires Reachable(s) && id in s.cells
    ensures Recalls(s.cells[id])
  {
    var n: nat, actions :| Run(Start(n), actions) == Some(s);
    StartInv(n);
    hide Inv, Run, Recalls;
    assert AllRecall(Start(n));
    RunRecalls(Start(n), actions);
  }

  // What a task retains of a stream is a beginning of the stream if and only if, once a
  // piece of the stream had been dropped, no later one of it fitted what both streams
  // had left of the budget when it was recorded.
  lemma RetainedIsPrefixIff(s: Sys, id: int, stream: Stream)
    requires Reachable(s) && id in s.cells
    ensures var c := s.cells[id];
            Retained(c.task.log, stream) <= FeedOf(c, stream).All() <==> DroppedForGood(0, c.printed, stream)
  {
    hide Reachable, Recorded, DroppedForGood;
    RecordedInOrder(s, id);
    var c := s.cells[id];
    RetainsKept(c.task, c.printed, stream);
    KeptIsPrefixIff(0, c.printed, stream);
    KeepsNoMore(0, c.printed, stream);
    BeginsWithin(TextsOf(Keep(0, c.printed), stream), FeedOf(c, stream));
  }

  lemma BeginsWithin(kept: seq<Str>, f: Feed)
    requires f.Valid() && |kept| <= |f.Seen()|
    ensures kept <= f.All() <==> kept <= f.Seen()
  {
    hide Pipe.Pieces;
    assert kept <= f.Seen() ==> kept == f.Seen()[..|kept|];
    assert kept <= f.All() ==> kept == f.All()[..|kept|];
  }

  lemma RetainsKept(t: Task, pieces: seq<Piece>, stream: Stream)
    requires Recorded(t, pieces)
    ensures Retained(t.log, stream) == TextsOf(Keep(0, pieces), stream)
  {
  }
}
