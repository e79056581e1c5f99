// When a window reaches the end of a log that has stopped growing, and what stops
// one for good: a page whose JSON the client refuses, or a text the store refuses.
module CatchUp {
  import opened Text
  import opened Tasks
  import opened Ordering
  import opened ControllerStore
  import opened Wire
  import opened Replica
  import AgentStore

  // The page after `c` can be taken.
  predicate PageFits(log: seq<Event>, c: nat)
    requires c <= |log|
  {
    var d := AgentStore.Min(|log|, c + PAGE);
    PageBytes(log[c..d]) <= MAX_RESPONSE && Fits(log, c, d)
  }

  // So can every page from there on.
  predicate PagesFit(log: seq<Event>, c: nat)
    decreases |log| - c
  {
    c >= |log| || (PageFits(log, c) && PagesFit(log, c + PAGE))
  }

  // The last position up to `m` that whole pages from `c` lead to.
  function LastStop(c: nat, m: nat): (x: nat)
    requires c <= m
    ensures c <= x <= m < x + PAGE
    decreases m - c
  {
    if c + PAGE <= m then LastStop(c + PAGE, m) else c
  }

  // --- One refresh ---------------------------------------------------------------

  ghost predicate At(s: Replica, m: nat, p: int, q: Poller) {
    Holds(s, m) && p in s.pollers && s.pollers[p] == q && 0 <= q.cursor <= m <= |s.log|
  }

  lemma Enters(s: Replica, m: nat, p: int)
    requires Holds(s, m) && p in s.pollers
    ensures At(s, m, p, s.pollers[p])
  {
    HoldsFor(s, m, p);
  }

  lemma OwnStep(s: Replica, m: nat, p: int, q: Poller, step: Step)
    requires At(s, m, p, q)
    ensures var t := Next(s, Polls(p, step));
            && At(t, Reach(s, m, step, q), p, Polled(s, step, q))
            && t.log == s.log && t.task == s.task && t.cache == Cached(s, step, q)
  {
    hide Polled, Cached;
    PollHolds(s, m, p, step);
    Enters(Next(s, Polls(p, step)), Reach(s, m, step, q), p);
  }

  function Refresh(p: int): seq<Happening> {
    [Polls(p, Ask), Polls(p, Answer), Polls(p, Store), Polls(p, Read), Polls(p, Show)]
  }

  function GiveUp(p: int): seq<Happening> {
    [Polls(p, Ask), Polls(p, Fail), Polls(p, Read), Polls(p, Show)]
  }

  lemma RefreshSteps(s: Replica, p: int)
    ensures Play(s, Refresh(p))
         == Next(Next(Next(Next(Next(s, Polls(p, Ask)), Polls(p, Answer)), Polls(p, Store)), Polls(p, Read)), Polls(p, Show))
    ensures Play(s, GiveUp(p)) == Next(Next(Next(Next(s, Polls(p, Ask)), Polls(p, Fail)), Polls(p, Read)), Polls(p, Show))
  {
    var run, short := Refresh(p), GiveUp(p);
    hide Next;
    assert run == run[..4] + [Polls(p, Show)] && run[..4] == run[..3] + [Polls(p, Read)]
        && run[..3] == run[..2] + [Polls(p, Store)] && run[..2] == run[..1] + [Polls(p, Answer)]
        && run[..1] == run[..0] + [Polls(p, Ask)];
    PlayOne(s, run[..0], Polls(p, Ask));
    PlayOne(s, run[..1], Polls(p, Answer));
    PlayOne(s, run[..2], Polls(p, Store));
    PlayOne(s, run[..3], Polls(p, Read));
    PlayOne(s, run[..4], Polls(p, Show));
    assert short == short[..3] + [Polls(p, Show)] && short[..3] == short[..2] + [Polls(p, Read)]
        && short[..2] == short[..1] + [Polls(p, Fail)] && short[..1] == short[..0] + [Polls(p, Ask)];
    PlayOne(s, short[..0], Polls(p, Ask));
    PlayOne(s, short[..1], Polls(p, Fail));
    PlayOne(s, short[..2], Polls(p, Read));
    PlayOne(s, short[..3], Polls(p, Show));
  }

  // Reading and showing what the cache has.
  lemma ReadAndShow(s: Replica, m: nat, p: int, q: Poller)
    requires At(s, m, p, q) && q.stage.Synced?
    ensures var t := Next(Next(s, Polls(p, Read)), Polls(p, Show));
            && Holds(t, m) && t.log == s.log && p in t.pollers && t.pollers[p].stage.Idle?
            && t.pollers[p].cursor == AgentStore.Min(m, q.cursor + PAGE)
            && t.pollers[p].refreshes == q.refreshes
  {
    hide LocalPage, Merged, Reported, CacheIs;
    OwnStep(s, m, p, q, Read);
    HoldsFor(s, m, p);
    LocalPageIsSlice(s.cache, s.log, m, q.cursor);
    var a, r := Next(s, Polls(p, Read)), Polled(s, Read, q);
    OwnStep(a, m, p, r, Show);
    HoldsFor(a, m, p);
    ShowKeeps(a, m, r);
  }

  lemma AtMeans(s: Replica, m: nat, p: int, q: Poller)
    requires At(s, m, p, q)
    ensures Holds(s, m) && p in s.pollers && s.pollers[p] == q && 0 <= q.cursor <= m <= |s.log| && Numbered(s.log)
  {
  }

  lemma AskedAnswers(s: Replica, m: nat, q: Poller)
    requires q.stage.Asked?
    ensures Polled(s, Answer, q) == q.(stage := Answered(Reported(s.task, AgentStore.PageOf(s.log, q.cursor))))
    ensures Reach(s, m, Answer, q) == m
  {
  }

  lemma PageFitsIs(log: seq<Event>, c: nat)
    requires c <= |log|
    ensures var d := AgentStore.Min(|log|, c + PAGE);
            c <= d <= |log| && (PageFits(log, c) <==> PageBytes(log[c..d]) <= MAX_RESPONSE && Fits(log, c, d))
            && |log[c..d]| == AgentStore.Min(PAGE, |log| - c) && d == c + AgentStore.Min(PAGE, |log| - c)
  {
  }

  lemma AnswersPage(s: Replica, m: nat, p: int, q: Poller)
    requires At(s, m, p, q) && q.stage.Asked? && 0 <= q.cursor <= |s.log|
    ensures var d := AgentStore.Min(|s.log|, q.cursor + PAGE);
            && Polled(s, Answer, q) == q.(stage := Answered(Reported(s.task, s.log[q.cursor..d])))
            && Reach(s, m, Answer, q) == m
            && (Storable(s.task, Reported(s.task, s.log[q.cursor..d])) <==> PageFits(s.log, q.cursor))
  {
    hide *;
    AtMeans(s, m, p, q);
    AnswerIsSlice(s.log, q.cursor);
    AskedAnswers(s, m, q);
    PageFitsIs(s.log, q.cursor);
    StorableFits(s, q.cursor, AgentStore.Min(|s.log|, q.cursor + PAGE));
  }

  // The answer arrives and is stored, or refused.
  lemma StoresPage(s: Replica, m: nat, p: int, q: Poller)
    requires At(s, m, p, q) && q.stage == Answered(Reported(s.task, s.log[q.cursor..AgentStore.Min(|s.log|, q.cursor + PAGE)]))
    ensures var fits := PageFits(s.log, q.cursor);
            var reached := if fits then Max(m, AgentStore.Min(|s.log|, q.cursor + PAGE)) else m;
            var t := Next(s, Polls(p, Store));
            && At(t, reached, p, q.(stage := Synced(fits), refreshes := q.refreshes + if fits then 1 else 0))
            && t.log == s.log
  {
    hide *;
    AtMeans(s, m, p, q);
    PageFitsIs(s.log, q.cursor);
    var d := AgentStore.Min(|s.log|, q.cursor + PAGE);
    StorableFits(s, q.cursor, d);
    ReportedLength(s.task, s.log[q.cursor..d]);
    AnsweredStores(s, m, q);
    OwnStep(s, m, p, q, Store);
  }

  lemma AnsweredStores(s: Replica, m: nat, q: Poller)
    requires q.stage.Answered? && 0 <= q.cursor
    ensures var ok := Storable(s.task, q.stage.page);
            && Polled(s, Store, q) == q.(stage := Synced(ok), refreshes := q.refreshes + if ok then 1 else 0)
            && Reach(s, m, Store, q) == if ok then Max(m, q.cursor + |q.stage.page|) else m
  {
    hide Storable;
  }

  // An undisturbed refresh is stored if and only if its page fits, and moves the
  // cursor on as far as the cache then reaches, at most a page.
  lemma RefreshStoredIff(s: Replica, m: nat, p: int)
    requires Holds(s, m) && p in s.pollers && s.pollers[p].stage.Idle? && 0 <= s.pollers[p].cursor <= |s.log|
    ensures var c, t := s.pollers[p].cursor, Play(s, Refresh(p));
            var fits := PageFits(s.log, c);
            var reached := if fits then Max(m, AgentStore.Min(|s.log|, c + PAGE)) else m;
            && Holds(t, reached) && t.log == s.log && p in t.pollers && t.pollers[p].stage.Idle?
            && t.pollers[p].cursor == AgentStore.Min(reached, c + PAGE)
            && t.pollers[p].refreshes == s.pollers[p].refreshes + if fits then 1 else 0
  {
    RefreshSteps(s, p);
    hide Holds, PageFits, Storable, Reported, Merged, LocalPage, Next, Refresh;
    var q0 := s.pollers[p];
    Enters(s, m, p);
    OwnStep(s, m, p, q0, Ask);
    var a, q1 := Next(s, Polls(p, Ask)), q0.(stage := Asked);
    AnswersPage(a, m, p, q1);
    OwnStep(a, m, p, q1, Answer);
    var b, q2 := Next(a, Polls(p, Answer)), Polled(a, Answer, q1);
    StoresPage(b, m, p, q2);
    hide At;
    var fits := PageFits(s.log, q0.cursor);
    var reached := if fits then Max(m, AgentStore.Min(|s.log|, q0.cursor + PAGE)) else m;
    ReadAndShow(Next(b, Polls(p, Store)), reached, p, q2.(stage := Synced(fits), refreshes := q2.refreshes + if fits then 1 else 0));
  }

  lemma ReportedLength(task: int, page: seq<Event>)
    ensures |Reported(task, page)| == |page|
  {
  }

  // A refresh that fails moves the cursor on within the cache.
  lemma FailedRefresh(s: Replica, m: nat, p: int)
    requires Holds(s, m) && p in s.pollers && s.pollers[p].stage.Idle?
    ensures var t := Play(s, GiveUp(p));
            && Holds(t, m) && t.log == s.log && p in t.pollers && t.pollers[p].stage.Idle?
            && t.pollers[p].cursor == AgentStore.Min(m, s.pollers[p].cursor + PAGE)
  {
    RefreshSteps(s, p);
    hide Holds, PollerInv, Reported, CacheAll, Merged, LocalPage;
    var q0 := s.pollers[p];
    Enters(s, m, p);
    OwnStep(s, m, p, q0, Ask);
    var a, q1 := Next(s, Polls(p, Ask)), q0.(stage := Asked);
    OwnStep(a, m, p, q1, Fail);
    ReadAndShow(Next(a, Polls(p, Fail)), m, p, q1.(stage := Synced(false)));
  }

  // --- The end of a quiet log --------------------------------------------------------

  ghost predicate Own(run: seq<Happening>, p: int) {
    forall h | h in run :: h.Polls? && h.p == p
  }

  ghost predicate Reaches(s: Replica, run: seq<Happening>, p: int) {
    Own(run, p) && p in Play(s, run).pollers && Play(s, run).pollers[p].cursor == |s.log|
  }

  lemma Continues(s: Replica, first: seq<Happening>, rest: seq<Happening>, p: int)
    requires Own(first, p) && Play(s, first).log == s.log && Reaches(Play(s, first), rest, p)
    ensures Reaches(s, first + rest, p)
  {
    PlayAppends(s, first, rest);
  }

  ghost predicate Waits(s: Replica, m: nat, p: int, c: nat) {
    Holds(s, m) && p in s.pollers && s.pollers[p].stage.Idle? && s.pollers[p].cursor == c <= m <= |s.log|
  }

  lemma AfterRefresh(s: Replica, m: nat, p: int, c: nat)
    requires Waits(s, m, p, c) && PageFits(s.log, c)
    ensures var reached := Max(m, AgentStore.Min(|s.log|, c + PAGE));
            && Waits(Play(s, Refresh(p)), reached, p, AgentStore.Min(|s.log|, c + PAGE))
            && Play(s, Refresh(p)).log == s.log && Own(Refresh(p), p)
  {
    hide Holds, PageFits;
    RefreshStoredIff(s, m, p);
  }

  lemma AfterGiveUp(s: Replica, m: nat, p: int, c: nat)
    requires Waits(s, m, p, c)
    ensures Waits(Play(s, GiveUp(p)), m, p, AgentStore.Min(m, c + PAGE))
    ensures Play(s, GiveUp(p)).log == s.log && Own(GiveUp(p), p)
  {
    hide Holds;
    FailedRefresh(s, m, p);
  }

  lemma AtTheEnd(s: Replica, m: nat, p: int, c: nat)
    requires Waits(s, m, p, c) && c == |s.log|
    ensures Reaches(s, [], p)
  {
  }

  // Where a window can fetch from, and where it can after a refresh.
  predicate Source(m: nat, c: nat, x: nat)
    requires c <= m
  {
    x == m || x == LastStop(c, m)
  }

  lemma SourceStays(m: nat, c: nat, x: nat)
    requires c <= m && Source(m, c, x) && c != x
    ensures c < AgentStore.Min(m, c + PAGE) && Source(m, AgentStore.Min(m, c + PAGE), x)
  {
  }

  lemma SourceMoves(log: seq<Event>, m: nat, c: nat)
    requires c <= m <= |log| && c < |log| && Source(m, c, c) && PagesFit(log, c)
    ensures var d := AgentStore.Min(|log|, c + PAGE);
            PageFits(log, c) && c < d && Max(m, d) == d && PagesFit(log, d) && Source(d, d, d)
  {
  }

  lemma WaitsMeans(s: Replica, m: nat, p: int, c: nat)
    requires Waits(s, m, p, c)
    ensures c <= m <= |s.log|
  {
  }

  // From `x`, one of the two places a window can fetch from, the pages lead on.
  lemma {:induction false} FitsReaches(s: Replica, m: nat, p: int, c: nat, x: nat) returns (run: seq<Happening>)
    requires Waits(s, m, p, c)
    requires c <= m && Source(m, c, x) && PagesFit(s.log, x)
    ensures Reaches(s, run, p)
    decreases |s.log| - c
  {
    hide *;
    run := [];
    WaitsMeans(s, m, p, c);
    if c == |s.log| {
      AtTheEnd(s, m, p, c);
    } else if c == x {
      SourceMoves(s.log, m, c);
      AfterRefresh(s, m, p, c);
      var d := AgentStore.Min(|s.log|, c + PAGE);
      var rest := FitsReaches(Play(s, Refresh(p)), d, p, d, d);
      Continues(s, Refresh(p), rest, p);
      run := Refresh(p) + rest;
    } else {
      SourceStays(m, c, x);
      AfterGiveUp(s, m, p, c);
      var d := AgentStore.Min(m, c + PAGE);
      WaitsMeans(Play(s, GiveUp(p)), m, p, d);
      var rest := FitsReaches(Play(s, GiveUp(p)), m, p, d, x);
      Continues(s, GiveUp(p), rest, p);
      run := GiveUp(p) + rest;
    }
  }

  // Nothing the window can do leads on.
  ghost predicate NoWay(task: int, log: seq<Event>, m: nat, q: Poller) {
    && 0 <= q.cursor <= m <= |log|
    && !PagesFit(log, m) && !PagesFit(log, LastStop(q.cursor, m))
    && match q.stage
       case Answered(page) => page == Reported(task, log[q.cursor..AgentStore.Min(|log|, q.cursor + PAGE)])
       case Replied(_, found) => |found| == AgentStore.Min(PAGE, m - q.cursor)
       case _ => true
  }

  ghost predicate Stuck(s: Replica, m: nat, p: int, log: seq<Event>) {
    s.log == log && p in s.pollers && At(s, m, p, s.pollers[p]) && NoWay(s.task, log, m, s.pollers[p])
  }

  // Storing a page that fits does not help either.
  lemma StuckAfterStore(log: seq<Event>, m: nat, c: nat)
    requires c <= m <= |log| && !PagesFit(log, m) && !PagesFit(log, LastStop(c, m)) && PageFits(log, c)
    ensures var n := Max(m, AgentStore.Min(|log|, c + PAGE));
            c <= n <= |log| && !PagesFit(log, n) && !PagesFit(log, LastStop(c, n))
  {
    if c + PAGE > m {
      assert LastStop(c, m) == c;
      assert !PagesFit(log, c + PAGE);
      assert LastStop(c, c + PAGE) == LastStop(c + PAGE, c + PAGE) == c + PAGE;
    }
  }

  lemma StuckAfterShow(m: nat, c: nat)
    requires c <= m
    ensures var d := AgentStore.Min(m, c + PAGE); d <= m && (LastStop(d, m) == LastStop(c, m) || LastStop(d, m) == m)
  {
  }

  lemma AnswerNoWay(s: Replica, m: nat, p: int, q: Poller)
    requires At(s, m, p, q) && NoWay(s.task, s.log, m, q) && q.stage.Asked?
    ensures NoWay(s.task, s.log, Reach(s, m, Answer, q), Polled(s, Answer, q))
  {
    hide At, Polled, Reach, PagesFit, LastStop, Storable, PageFits, Reported;
    AnswersPage(s, m, p, q);
  }

  lemma StoreNoWay(s: Replica, m: nat, p: int, q: Poller)
    requires At(s, m, p, q) && NoWay(s.task, s.log, m, q) && q.stage.Answered?
    ensures NoWay(s.task, s.log, Reach(s, m, Store, q), Polled(s, Store, q))
  {
    hide At, Polled, Reach, PagesFit, LastStop, Storable, PageFits, Reported, Fits, PageBytes;
    AtMeans(s, m, p, q);
    var d := AgentStore.Min(|s.log|, q.cursor + PAGE);
    PageFitsIs(s.log, q.cursor);
    AnsweredStores(s, m, q);
    StorableFits(s, q.cursor, d);
    ReportedLength(s.task, s.log[q.cursor..d]);
    if PageFits(s.log, q.cursor) {
      StuckAfterStore(s.log, m, q.cursor);
    }
  }

  lemma ReadNoWay(s: Replica, m: nat, p: int, q: Poller)
    requires At(s, m, p, q) && NoWay(s.task, s.log, m, q) && q.stage.Synced?
    ensures NoWay(s.task, s.log, Reach(s, m, Read, q), Polled(s, Read, q))
  {
    hide PagesFit, LastStop, LocalPage, PollerInv, At;
    AtMeans(s, m, p, q);
    HoldsFor(s, m, p);
    LocalPageIsSlice(s.cache, s.log, m, q.cursor);
  }

  lemma ShowNoWay(s: Replica, m: nat, p: int, q: Poller)
    requires At(s, m, p, q) && NoWay(s.task, s.log, m, q) && q.stage.Replied?
    ensures NoWay(s.task, s.log, Reach(s, m, Show, q), Polled(s, Show, q))
  {
    hide PagesFit, LastStop, PollerInv, At, Merged;
    AtMeans(s, m, p, q);
    HoldsFor(s, m, p);
    ShowKeeps(s, m, q);
    StuckAfterShow(m, q.cursor);
  }

  lemma StuckStays(s: Replica, m: nat, p: int, log: seq<Event>, step: Step) returns (n: nat)
    requires Stuck(s, m, p, log)
    ensures Stuck(Next(s, Polls(p, step)), n, p, log)
  {
    hide At, NoWay, Holds;
    var q := s.pollers[p];
    n := Reach(s, m, step, q);
    OwnStep(s, m, p, q, step);
    match (step, q.stage)
    case (Answer, Asked) => AnswerNoWay(s, m, p, q);
    case (Store, Answered(page)) => StoreNoWay(s, m, p, q);
    case (Read, Synced(_)) => ReadNoWay(s, m, p, q);
    case (Show, Replied(_, found)) => ShowNoWay(s, m, p, q);
    case _ => OtherNoWay(s, m, q, step);
  }

  lemma OtherNoWay(s: Replica, m: nat, q: Poller, step: Step)
    requires NoWay(s.task, s.log, m, q)
    requires !(step.Answer? && q.stage.Asked?) && !(step.Store? && q.stage.Answered?)
    requires !(step.Read? && q.stage.Synced?) && !(step.Show? && q.stage.Replied?)
    ensures NoWay(s.task, s.log, Reach(s, m, step, q), Polled(s, step, q))
  {
    hide PagesFit, LastStop, Reported;
  }

  lemma {:induction false} StuckForGood(s: Replica, m: nat, p: int, log: seq<Event>, run: seq<Happening>) returns (n: nat)
    requires Stuck(s, m, p, log) && Own(run, p)
    ensures Stuck(Play(s, run), n, p, log)
  {
    n := m;
    if run != [] {
      hide Stuck;
      var before := run[..|run|-1];
      assert run[|run|-1] in run;
      n := StuckForGood(s, m, p, log, before);
      n := StuckStays(Play(s, before), n, p, log, run[|run|-1].step);
    }
  }

  // A window can bring itself to the end of a log that no longer grows if and only
  // if every page fits from where the cache ends, or from the last place before it
  // that whole pages lead to.
  lemma EndReachableIff(s: Replica, m: nat, p: int, c: nat)
    requires Waits(s, m, p, c)
    ensures c <= m
    ensures (exists run :: Reaches(s, run, p)) <==> PagesFit(s.log, m) || PagesFit(s.log, LastStop(c, m))
  {
    if PagesFit(s.log, m) {
      var run := FitsReaches(s, m, p, c, m);
    } else if PagesFit(s.log, LastStop(c, m)) {
      var run := FitsReaches(s, m, p, c, LastStop(c, m));
    } else {
      assert Stuck(s, m, p, s.log);
      forall run
        ensures !Reaches(s, run, p)
      {
        if Reaches(s, run, p) {
          var n := StuckForGood(s, m, p, s.log, run);
          assert false;
        }
      }
    }
  }

  // --- A first page that does not fit -----------------------------------------------

  // The window has nothing on its way that would fit.
  ghost predicate Starved(task: int, q: Poller) {
    && q.cursor == 0 && q.window == []
    && (q.stage.Answered? ==> !Storable(task, q.stage.page))
    && (q.stage.Replied? ==> q.stage.found == [])
  }

  ghost predicate Blocked(s: Replica) {
    && Numbered(s.log) && s.cache == map[] && !PageFits(s.log, 0)
    && forall p | p in s.pollers :: Starved(s.task, s.pollers[p])
  }

  lemma StaysTooBig(log: seq<Event>, more: seq<Event>)
    requires !PageFits(log, 0)
    ensures !PageFits(log + more, 0)
  {
    var all := log + more;
    var d, e := AgentStore.Min(|log|, PAGE), AgentStore.Min(|all|, PAGE);
    assert all[0..e] == log[0..d] + all[d..e];
    LongerPage(log[0..d], all[d..e]);
    if !Fits(log, 0, d) {
      var k :| 0 <= k < d && ByteLen(TextOf(log[k].body)) > MAX_EVENT_TEXT;
      assert all[k] == log[k];
    }
  }

  lemma NothingToShow()
    ensures LocalPage(map[], 0) == [] && Merged([], []) == []
  {
    AscendingUpTo<Event>(map[], 0, 0);
    AscendingUpTo<Event>(map[], -1, -1);
    var none: seq<Event> := [];
    assert none + none == none && Rows(none) == map[];
  }

  lemma FirstAnswer(s: Replica)
    requires Numbered(s.log) && !PageFits(s.log, 0)
    ensures !Storable(s.task, Reported(s.task, AgentStore.PageOf(s.log, 0)))
  {
    hide Storable, Reported, PageBytes, Fits;
    AnswerIsSlice(s.log, 0);
    StorableFits(s, 0, AgentStore.Min(|s.log|, PAGE));
    PageFitsIs(s.log, 0);
  }

  lemma StarvedStays(s: Replica, step: Step, q: Poller)
    requires Numbered(s.log) && s.cache == map[] && !PageFits(s.log, 0) && Starved(s.task, q)
    ensures Starved(s.task, Polled(s, step, q)) && Cached(s, step, q) == map[]
  {
    hide Storable, PageFits, LocalPage, Merged, Reported, AgentStore.PageOf, Numbered, CacheAll;
    match (step, q.stage)
    case (Answer, Asked) => FirstAnswer(s);
    case (Read, Synced(_)) => NothingToShow();
    case (Show, Replied(_, _)) => NothingToShow();
    case _ =>
  }

  lemma BlockedStays(s: Replica, h: Happening)
    requires Blocked(s)
    ensures Blocked(Next(s, h))
  {
    match h
    case Logs(more) => StaysTooBig(s.log, more);
    case Opens(_) =>
    case Polls(p, step) =>
      if p in s.pollers {
        StarvedStays(s, step, s.pollers[p]);
        hide Starved, Polled, Cached, PageFits;
      }
  }

  // While the first page does not fit, no window ever shows anything, however many
  // there are, whatever they do and however the log grows.
  lemma {:induction false} FirstPageBlocks(s: Replica, run: seq<Happening>)
    requires Blocked(s)
    ensures Blocked(Play(s, run))
  {
    if run != [] {
      hide Blocked, Next;
      FirstPageBlocks(s, run[..|run|-1]);
      BlockedStays(Play(s, run[..|run|-1]), run[|run|-1]);
    }
  }
}
