// Two runs of the agent with much output: one whose retained output is not a
// beginning of what the process wrote, and one that no window can ever show.
module LargeOutput {
  import opened Text
  import opened Utf8
  import opened Pipe
  import opened Tasks
  import opened Engine
  import opened System
  import opened Theorems
  import opened Counterexamples
  import opened Retention
  import opened Wire
  import ControllerStore
  import Replica
  import CatchUp

  // --- Texts of one character -----------------------------------------------------

  const A: Scalar := 0x61

  function Repeat(c: Scalar, n: nat): Str {
    seq(n, i => c)
  }

  lemma {:induction false} RepeatLength(c: Scalar, n: nat)
    requires c < 0x80
    ensures ByteLen(Repeat(c, n)) == n
  {
    if n > 0 {
      assert Repeat(c, n)[..n - 1] == Repeat(c, n - 1);
      RepeatLength(c, n - 1);
    }
  }

  lemma {:induction false} RepeatEscaped(n: nat)
    ensures EscapedLen(Repeat(BACKSLASH, n)) == 2 * n
  {
    if n > 0 {
      assert Repeat(BACKSLASH, n)[..n - 1] == Repeat(BACKSLASH, n - 1);
      RepeatEscaped(n - 1);
    }
  }

  predicate Plain(c: Scalar) {
    Printable(c) && c != NEWLINE && c < 0x80
  }

  function Line(c: Scalar): Str {
    Repeat(c, LINE_LIMIT)
  }

  function Ended(c: Scalar, n: nat): Str {
    Repeat(c, n) + [NEWLINE]
  }

  lemma LineIsPiece(c: Scalar)
    requires Plain(c)
    ensures Tight(Line(c)) && Full(Line(c)) && ByteLen(Line(c)) == LINE_LIMIT
  {
    RepeatLength(c, LINE_LIMIT);
    forall k | 0 < k < LINE_LIMIT
      ensures !Full(Line(c)[..k])
    {
      assert Line(c)[..k] == Repeat(c, k);
      RepeatLength(c, k);
    }
  }

  lemma EndedIsPiece(c: Scalar, n: nat)
    requires Plain(c) && n < LINE_LIMIT
    ensures Tight(Ended(c, n)) && Full(Ended(c, n)) && ByteLen(Ended(c, n)) == n + 1
  {
    RepeatLength(c, n);
    assert Ended(c, n)[..n] == Repeat(c, n);
    forall k | 0 < k < n + 1
      ensures !Full(Ended(c, n)[..k])
    {
      assert Ended(c, n)[..k] == Repeat(c, k);
      RepeatLength(c, k);
    }
  }

  lemma {:induction false} ConcatPrintable(list: seq<Str>)
    requires forall p | p in list :: forall c | c in p :: Printable(c)
    ensures forall c | c in Concat(list) :: Printable(c)
  {
    if list != [] {
      assert list[0] in list && forall p | p in list[1..] :: p in list;
      ConcatPrintable(list[1..]);
    }
  }

  // A process that writes these texts one after another is read in these pieces.
  lemma ReadAsWritten(list: seq<Str>)
    requires forall p | p in list :: Tight(p) && Full(p) && forall c | c in p :: Printable(c)
    ensures Pieces(EncodeAll(Concat(list)), true) == list
  {
    hide Pieces, EncodeAll, Tight, Full;
    ConcatPrintable(list);
    CleanTextPasses(Concat(list));
    SplitUnique(Pieces(EncodeAll(Concat(list)), true), list, Concat(list));
  }

  function Lines(c: Scalar, k: nat): seq<Str> {
    seq(k, i => Line(c))
  }

  lemma {:induction false} LinesTotal(c: Scalar, k: nat)
    requires Plain(c)
    ensures Total(Lines(c, k)) == k * LINE_LIMIT
  {
    if k > 0 {
      assert Lines(c, k)[..k - 1] == Lines(c, k - 1);
      LinesTotal(c, k - 1);
      LineIsPiece(c);
    }
  }

  // --- A running task ---------------------------------------------------------------

  // The cell after the first `k` pieces of its output have been recorded.
  function AfterPrints(w: Cell, k: nat): Cell
    requires k <= |w.out.All()|
  {
    var pieces := On(Stdout, w.out.All()[..k]);
    w.(task := Fed(w.task, pieces), out := Feed(w.out.bytes, k), printed := w.printed + pieces)
  }

  lemma OneMorePrint(w: Cell, k: nat)
    requires w.pc.Watching? && k < |w.out.All()|
    ensures Enabled(AfterPrints(w, k), Print(Stdout)) && Do(AfterPrints(w, k), Print(Stdout)) == AfterPrints(w, k + 1)
  {
    hide Pieces, Output;
    var all := w.out.All();
    var pieces, piece := On(Stdout, all[..k]), Piece(Stdout, all[k]);
    assert On(Stdout, all[..k + 1]) == pieces + [piece];
    assert w.printed + (pieces + [piece]) == w.printed + pieces + [piece];
    FedSnoc(w.task, pieces, piece);
    hide Fed;
  }

  lemma {:induction false} Prints(s: Sys, w: Cell, k: nat) returns (t: Sys)
    requires Reachable(s) && Runs(s, w) && w.pc.Watching? && w.out.taken == 0 && k <= |w.out.All()|
    ensures Reachable(t) && Runs(t, AfterPrints(w, k))
  {
    hide Reachable, Do, Enabled, Pieces;
    if k == 0 {
      assert On(Stdout, w.out.All()[..0]) == [] && w.printed + [] == w.printed;
      t := s;
    } else {
      t := Prints(s, w, k - 1);
      OneMorePrint(w, k - 1);
      hide AfterPrints, Runs, Feed.All;
      t := Moves9(t, AfterPrints(w, k - 1), Print(Stdout));
    }
  }

  // Every piece of the process's output has been recorded, or left out.
  lemma AllPrinted(list: seq<Str>) returns (s: Sys)
    requires forall p | p in list :: Tight(p) && Full(p) && forall c | c in p :: Printable(c)
    ensures Taken().pc.Picked? && Taken().task.state == Starting
    ensures var w := Started(Taken(), EncodeAll(Concat(list)));
            && Reachable(s) && 9 in s.cells && s.cells[9].task == Fed(w.task, On(Stdout, list))
            && s.cells[9].pc.Watching? && Pieces(s.cells[9].out.bytes, true) == list
  {
    hide Reachable, Pieces, Fed, Tight, Full, Taken;
    TakenHas();
    var bytes := EncodeAll(Concat(list));
    ReadAsWritten(list);
    s := Launches(bytes);
    var w := Started(Taken(), bytes);
    StartedIs(Taken(), bytes);
    hide Started;
    s := Prints(s, w, |list|);
    assert w.out.All()[..|list|] == list;
  }

  // --- Retained output that is not a beginning ---------------------------------------

  // Lines that leave one byte of the budget, then two bytes, then one.
  const LINES: nat := 2047

  function Skipping(): seq<Str> {
    Lines(A, LINES) + [Ended(A, LINE_LIMIT - 2)] + [Ended(A, 1)] + [Ended(A, 0)]
  }

  lemma SkippingArePieces()
    ensures forall p | p in Skipping() :: Tight(p) && Full(p) && forall c | c in p :: Printable(c)
  {
    LineIsPiece(A);
    EndedIsPiece(A, LINE_LIMIT - 2);
    EndedIsPiece(A, 1);
    EndedIsPiece(A, 0);
    hide Tight, Full;
    forall p | p in Skipping()
      ensures Tight(p) && Full(p) && forall c | c in p :: Printable(c)
    {
      assert p == Line(A) || p == Ended(A, LINE_LIMIT - 2) || p == Ended(A, 1) || p == Ended(A, 0);
    }
  }

  lemma SkippingSkips()
    ensures !DroppedForGood(0, On(Stdout, Skipping()), Stdout)
  {
    var list := Skipping();
    LinesTotal(A, LINES);
    EndedIsPiece(A, LINE_LIMIT - 2);
    EndedIsPiece(A, 1);
    EndedIsPiece(A, 0);
    hide Lines, Ended, Total, ByteLen;
    SkippingTotals(list, Lines(A, LINES), Ended(A, LINE_LIMIT - 2), Ended(A, 1), Ended(A, 0));
  }

  lemma LinesCount(c: Scalar, k: nat)
    ensures |Lines(c, k)| == k
  {
  }

  // One byte is left when a piece of two arrives, and then one of one byte.
  lemma SkippingTotals(list: seq<Str>, lines: seq<Str>, a: Str, b: Str, c: Str)
    requires list == lines + [a] + [b] + [c]
    requires Total(lines) + ByteLen(a) + 1 == MAX_OUTPUT_BYTES && ByteLen(b) == 2 && ByteLen(c) == 1
    ensures !DroppedForGood(0, On(Stdout, list), Stdout)
  {
    hide Total, ByteLen, Size, DroppedForGood;
    var front := On(Stdout, lines + [a]);
    TotalSnoc(lines, a);
    OnReads(Stdout, lines + [a]);
    assert On(Stdout, list) == front + [Piece(Stdout, b)] + [Piece(Stdout, c)];
    LastButOneDropped(front, Piece(Stdout, b), Piece(Stdout, c));
  }

  lemma LastButOneDropped(front: seq<Piece>, b: Piece, c: Piece)
    requires Size(front) + 1 == MAX_OUTPUT_BYTES && ByteLen(b.text) == 2 && ByteLen(c.text) == 1
    requires b.stream == c.stream
    ensures !DroppedForGood(0, front + [b] + [c], b.stream)
  {
    hide ByteLen, Keep, Size;
    var pieces, n := front + [b] + [c], |front|;
    assert pieces[..n] == front && pieces[..n + 1] == front + [b];
    EverythingKept(0, front);
    KeepSnoc(0, front, b);
    assert pieces[n] == b && pieces[n + 1] == c;
    assert !Fits(0, pieces, n) && Fits(0, pieces, n + 1);
  }

  // A process writes lines of 8192 letters, one of 8190 and a line end, a letter and
  // a line end, and a line end. All of it is read, the last but one left out, and
  // the last kept.
  lemma RetainedIsNoPrefix() returns (s: Sys)
    ensures Reachable(s) && 9 in s.cells && s.cells[9].pc.Watching?
    ensures !(Retained(s.cells[9].task.log, Stdout) <= Pieces(s.cells[9].out.bytes, true))
  {
    var list := Skipping();
    SkippingArePieces();
    SkippingSkips();
    TakenHas();
    hide Skipping, Reachable, Pieces, Fed, Taken, DroppedForGood;
    s := AllPrinted(list);
    var w := Started(Taken(), EncodeAll(Concat(list)));
    NothingRetained(Taken(), EncodeAll(Concat(list)));
    hide Started, Retained;
    RetainedIsPrefixIff(w.task, On(Stdout, list), Stdout);
    OnReads(Stdout, list);
    assert [] + list == list;
  }

  lemma NothingRetained(c: Cell, out: seq<Byte>)
    requires c.pc.Picked? && c.task.state == Starting && c.task.bytes == 0 && Retained(c.task.log, Stdout) == []
    ensures Started(c, out).task.bytes == 0 && Retained(Started(c, out).task.log, Stdout) == []
  {
    StartedIs(c, out);
    var log := Started(c, out).task.log;
    hide Started;
    assert log[..|log|-1] == c.task.log;
  }

  // --- A page no window can take ------------------------------------------------------

  const MANY: nat := 200

  // The log goes on with exactly these texts.
  ghost predicate GoesOn(before: seq<Event>, log: seq<Event>, texts: seq<Str>) {
    && |log| == |before| + |texts| && log[..|before|] == before
    && forall k | 0 <= k < |texts| :: log[|before| + k].body == Printed(Stdout, texts[k])
  }

  lemma GoesOnOne(before: seq<Event>, log: seq<Event>, texts: seq<Str>, e: Event)
    requires texts != [] && GoesOn(before, log, texts[..|texts|-1]) && e.body == Printed(Stdout, texts[|texts|-1])
    ensures GoesOn(before, log + [e], texts)
  {
  }

  lemma FitsAppends(u: Task, text: Str) returns (e: Event)
    requires u.bytes + ByteLen(text) <= MAX_OUTPUT_BYTES
    ensures Output(u, Stdout, text).log == u.log + [e] && e.body == Printed(Stdout, text)
  {
    e := Event(MaxSeq(u.log) + 1, Printed(Stdout, text));
  }

  lemma AllFits(t: Task, texts: seq<Str>)
    requires t.bytes + Total(texts) <= MAX_OUTPUT_BYTES
    ensures Fed(t, On(Stdout, texts)).bytes == t.bytes + Total(texts)
  {
    hide Fed, Keep, Size, Total, Retained;
    OnReads(Stdout, texts);
    EverythingKept(t.bytes, On(Stdout, texts));
    FedKeeps(t, On(Stdout, texts));
  }

  lemma FedLast(t: Task, texts: seq<Str>)
    requires texts != []
    ensures Fed(t, On(Stdout, texts)) == Output(Fed(t, On(Stdout, texts[..|texts|-1])), Stdout, texts[|texts|-1])
  {
    assert On(Stdout, texts)[..|texts|-1] == On(Stdout, texts[..|texts|-1]);
  }

  lemma {:induction false} KeptInLog(t: Task, texts: seq<Str>)
    requires t.bytes + Total(texts) <= MAX_OUTPUT_BYTES
    ensures GoesOn(t.log, Fed(t, On(Stdout, texts)).log, texts)
  {
    if texts != [] {
      hide GoesOn, Fed, Output, Total, ByteLen, On;
      var front, last := texts[..|texts|-1], texts[|texts|-1];
      TotalOfLast(texts);
      KeptInLog(t, front);
      AllFits(t, front);
      FedLast(t, texts);
      var e := FitsAppends(Fed(t, On(Stdout, front)), last);
      GoesOnOne(t.log, Fed(t, On(Stdout, front)).log, texts, e);
    }
  }

  lemma TotalOfLast(texts: seq<Str>)
    requires texts != []
    ensures Total(texts) == Total(texts[..|texts|-1]) + ByteLen(texts[|texts|-1])
  {
  }

  lemma {:induction false} PageAtLeast(page: seq<Event>, skipped: nat)
    requires forall k | skipped <= k < |page| :: EscapedLen(TextOf(page[k].body)) >= 16384
    ensures PageBytes(page) >= (|page| - skipped) * 16384
  {
    if |page| > 1 {
      PageAtLeast(page[..|page|-1], skipped);
    }
  }

  lemma LinesArePieces(c: Scalar, k: nat)
    requires Plain(c)
    ensures forall p | p in Lines(c, k) :: Tight(p) && Full(p) && forall x | x in p :: Printable(x)
  {
    LineIsPiece(c);
    hide Tight, Full;
    forall p | p in Lines(c, k)
      ensures Tight(p) && Full(p) && forall x | x in p :: Printable(x)
    {
      assert p == Line(c);
    }
  }

  // The log of a task that has printed many lines of backslashes: the page of its
  // first events takes more JSON than the client accepts.
  lemma PageTooLarge(log: seq<Event>, before: seq<Event>)
    requires |before| == 3 && GoesOn(before, log, Lines(BACKSLASH, MANY))
    ensures !CatchUp.PageFits(log, 0)
  {
    var page := log[0..MANY];
    forall k | 3 <= k < |page|
      ensures EscapedLen(TextOf(page[k].body)) >= 16384
    {
      assert page[k].body == Printed(Stdout, Lines(BACKSLASH, MANY)[k - 3]);
      RepeatEscaped(LINE_LIMIT);
    }
    PageAtLeast(page, 3);
  }

  lemma ManyLines() returns (s: Sys, started: seq<Event>)
    ensures Reachable(s) && 9 in s.cells
    ensures |started| == 3 && GoesOn(started, s.cells[9].task.log, Lines(BACKSLASH, MANY))
    ensures |Taken().task.log| == 2 && started[..2] == Taken().task.log && started[2].body.Moved? && started[2].body.to != Failed
  {
    var list := Lines(BACKSLASH, MANY);
    LinesArePieces(BACKSLASH, MANY);
    LinesTotal(BACKSLASH, MANY);
    TakenHas();
    hide Reachable, Pieces, Fed, Taken, Lines, Total, GoesOn;
    s := AllPrinted(list);
    var bytes := EncodeAll(Concat(list));
    NothingRetained(Taken(), bytes);
    StartedIs(Taken(), bytes);
    var w := Started(Taken(), bytes);
    hide Started;
    KeptInLog(w.task, list);
    started := w.task.log;
  }

  lemma Blocks(task: int, log: seq<Event>, run: seq<Replica.Happening>)
    requires Numbered(log) && !CatchUp.PageFits(log, 0)
    ensures var t := Replica.Play(Replica.Replica(task, log, map[], map[]), run);
            t.cache == map[] && forall p | p in t.pollers :: t.pollers[p].window == []
  {
    hide CatchUp.PageFits, Replica.Play;
    var r := Replica.Replica(task, log, map[], map[]);
    assert CatchUp.Blocked(r);
    CatchUp.FirstPageBlocks(r, run);
  }

  // A process prints many lines of backslashes, each of them 8192 bytes. No text is
  // too long for the controller, but the first page is, and whatever windows do and
  // however the log grows, none of them ever shows an event.
  lemma NothingShown() returns (s: Sys)
    ensures Reachable(s) && 9 in s.cells
    ensures var log := s.cells[9].task.log;
            && (forall e | e in log :: ByteLen(TextOf(e.body)) <= ControllerStore.MAX_EVENT_TEXT)
            && forall run :: var t := Replica.Play(Replica.Replica(9, log, map[], map[]), run);
                             t.cache == map[] && forall p | p in t.pollers :: t.pollers[p].window == []
  {
    TakenHas();
    hide *;
    var started;
    s, started := ManyLines();
    var log := s.cells[9].task.log;
    PageTooLarge(log, started);
    NumberedLog(s);
    TextsAreShort(s, log, started, Taken().task.log);
    forall run
      ensures var t := Replica.Play(Replica.Replica(9, log, map[], map[]), run);
              t.cache == map[] && forall p | p in t.pollers :: t.pollers[p].window == []
    {
      Blocks(9, log, run);
    }
  }

  lemma NumberedLog(s: Sys)
    requires Reachable(s) && 9 in s.cells
    ensures Numbered(s.cells[9].task.log)
  {
    RowsAreReplays(s, 9);
  }

  lemma TextsAreShort(s: Sys, log: seq<Event>, started: seq<Event>, taken: seq<Event>)
    requires Reachable(s) && 9 in s.cells && log == s.cells[9].task.log
    requires |started| == 3 && |taken| == 2 && started[..2] == taken && GoesOn(started, log, Lines(BACKSLASH, MANY))
    requires (forall e | e in taken :: e.body.Moved? && e.body.to != Failed) && started[2].body.Moved? && started[2].body.to != Failed
    ensures forall e | e in log :: ByteLen(TextOf(e.body)) <= ControllerStore.MAX_EVENT_TEXT
  {
    LinesCount(BACKSLASH, MANY);
    hide Reachable, ByteLen, TextOf, Lines;
    forall e | e in log
      ensures ByteLen(TextOf(e.body)) <= ControllerStore.MAX_EVENT_TEXT
    {
      var i :| 0 <= i < |log| && log[i] == e;
      if i < 2 {
        assert log[i] == taken[i] && taken[i] in taken;
      } else if i == 2 {
        assert log[i] == started[2];
      } else {
        var k := i - |started|;
        assert log[|started| + k].body == Printed(Stdout, Lines(BACKSLASH, MANY)[k]);
      }
      EventTextsFit(s, 9, i, ControllerStore.MAX_EVENT_TEXT);
    }
  }
}
