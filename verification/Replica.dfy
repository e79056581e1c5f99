// The controller's copy of one task's event log, and the windows that follow it.
// Any number of windows poll the same history; each step of a poll may be lost,
// and the agent may add events between any two steps.
module Replica {
  import opened Text
  import opened Tasks
  import opened Ordering
  import opened ControllerStore
  import opened Wire
  import AgentStore

  const SHOWN: nat := 2000

  // --- The window of the task dialog ----------------------------------------------

  // `new Map(...)`: a later row with the same number replaces an earlier one.
  function Rows(events: seq<Event>): map<int, Event> {
    if events == [] then map[]
    else Rows(events[..|events|-1])[events[|events|-1].number := events[|events|-1]]
  }

  function LastOf<T>(s: seq<T>, n: nat): seq<T> {
    s[Max(0, |s| - n)..]
  }

  ghost function Merged(shown: seq<Event>, page: seq<Event>): seq<Event> {
    LastOf(Ascending(Rows(shown + page), -1), SHOWN)
  }

  // rows.set(e.seq, e) for each event.
  method SetAll(rows: map<int, Event>, ghost before: seq<Event>, events: seq<Event>) returns (r: map<int, Event>)
    requires rows == Rows(before)
    ensures r == Rows(before + events)
  {
    r := rows;
    assert before + events[..0] == before;
    for k := 0 to |events|
      invariant r == Rows(before + events[..k])
    {
      assert (before + events[..k + 1])[..|before| + k] == before + events[..k];
      r := r[events[k].number := events[k]];
    }
    assert events[..|events|] == events;
  }

  class TaskModal {
    var after: int
    var events: seq<Event>
    var loading: bool

    constructor ()
      ensures after == 0 && events == [] && !loading
    {
      after, events, loading := 0, [], false;
    }

    // Starts a refresh unless one is under way.
    method Begin() returns (cursor: Option<int>)
      modifies this`loading
      ensures loading && cursor == if old(loading) then None else Some(after)
    {
      if loading {
        return None;
      }
      loading := true;
      return Some(after);
    }

    // Shows the answer, if one came, and allows the next refresh.
    method Finish(answer: Option<seq<Event>>)
      modifies this
      ensures !loading
      ensures answer.None? ==> events == old(events) && after == old(after)
      ensures answer.Some? ==>
                && events == Merged(old(events), answer.value)
                && after == if answer.value == [] then old(after) else answer.value[|answer.value|-1].number
    {
      if answer.Some? {
        var page := answer.value;
        var rows := SetAll(map[], [], events);
        assert [] + events == events;
        rows := SetAll(rows, events, page);
        var all := InOrder(rows, -1);
        events := LastOf(all, SHOWN);
        if page != [] {
          after := page[|page|-1].number;
        }
      }
      loading := false;
    }
  }

  lemma {:induction false} RowsOfSlice(log: seq<Event>, a: nat, d: nat)
    requires Numbered(log) && a <= d <= |log|
    ensures forall k :: k in Rows(log[a..d]) <==> a < k <= d
    ensures forall k | a < k <= d :: Rows(log[a..d])[k] == log[k - 1]
  {
    if a < d {
      var part := log[a..d];
      assert part[..|part|-1] == log[a..d - 1] && part[|part|-1] == log[d - 1];
      RowsOfSlice(log, a, d - 1);
    }
  }

  lemma {:induction false} NothingBelow<T>(rows: map<int, T>, low: int, after: int, upto: int)
    requires low <= after && forall k | k in rows :: after < k
    ensures Between(rows, low, upto) == Between(rows, after, upto)
    decreases upto - low
  {
    if low < upto {
      NothingBelow(rows, low, after, upto - 1);
    }
  }

  // Merging the next stretch of a log into a window of it moves the window on.
  lemma MergeMovesOn(log: seq<Event>, c: nat, d: nat)
    requires Numbered(log) && c <= d <= |log|
    ensures Merged(log[Max(0, c - SHOWN)..c], log[c..d]) == log[Max(0, d - SHOWN)..d]
  {
    hide Rows, Between, Ascending;
    var a := Max(0, c - SHOWN);
    assert log[a..c] + log[c..d] == log[a..d];
    var rows := Rows(log[a..d]);
    RowsOfSlice(log, a, d);
    AscendingUpTo(rows, -1, d);
    NothingBelow(rows, -1, a, d);
    BetweenIsSlice(rows, log, a, d);
  }

  // --- The whole system -------------------------------------------------------------

  // `Answered` and `Replied` hold what is on its way back.
  datatype Stage = Idle | Asked | Answered(page: seq<RemoteEvent>) | Synced(ok: bool) | Replied(ok: bool, found: seq<Event>)

  // `refreshes` counts the refreshes whose page was stored.
  datatype Poller = Poller(cursor: int, window: seq<Event>, stage: Stage, refreshes: nat)

  // `task` is the remote id in the history.
  datatype Replica = Replica(task: int, log: seq<Event>, cache: map<int, Event>, pollers: map<int, Poller>)

  // Store keeps all of a page or nothing of it; Fail is any error of the
  // synchronisation; Read takes the reply from the cache.
  datatype Step = Ask | Answer | Fail | Store | Read | Show

  datatype Happening =
    | Logs(more: seq<Event>)
    | Opens(p: int)
    | Polls(p: int, step: Step)

  function Reported(task: int, page: seq<Event>): seq<RemoteEvent> {
    seq(|page|, i requires 0 <= i < |page| => RemoteEvent(task, page[i]))
  }

  function EventsOf(page: seq<RemoteEvent>): seq<Event> {
    seq(|page|, i requires 0 <= i < |page| => page[i].event)
  }

  // The client takes the response, and the store every event in it.
  predicate Storable(task: int, page: seq<RemoteEvent>) {
    PageBytes(EventsOf(page)) <= MAX_RESPONSE && forall e | e in page :: Acceptable(Some(task), e)
  }

  // The poller after a step of its refresh; a step out of turn changes nothing.
  ghost function Polled(s: Replica, step: Step, p: Poller): Poller {
    match (step, p.stage)
    case (Ask, Idle) => p.(stage := Asked)
    case (Answer, Asked) => p.(stage := Answered(Reported(s.task, AgentStore.PageOf(s.log, p.cursor))))
    case (Fail, Asked) => p.(stage := Synced(false))
    case (Fail, Answered(_)) => p.(stage := Synced(false))
    case (Store, Answered(page)) =>
      if Storable(s.task, page) then p.(stage := Synced(true), refreshes := p.refreshes + 1) else p.(stage := Synced(false))
    case (Read, Synced(ok)) => p.(stage := Replied(ok, LocalPage(s.cache, p.cursor)))
    case (Show, Replied(_, found)) =>
      p.(stage := Idle, window := Merged(p.window, found),
         cursor := if found == [] then p.cursor else found[|found|-1].number)
    case _ => p
  }

  function Cached(s: Replica, step: Step, p: Poller): map<int, Event> {
    if step.Store? && p.stage.Answered? && Storable(s.task, p.stage.page) then CacheAll(s.cache, p.stage.page) else s.cache
  }

  ghost function Next(s: Replica, h: Happening): Replica {
    match h
    case Logs(more) => if Numbered(s.log + more) then s.(log := s.log + more) else s
    case Opens(p) => if p in s.pollers then s else s.(pollers := s.pollers[p := Poller(0, [], Idle, 0)])
    case Polls(p, step) =>
      if p !in s.pollers then s
      else s.(cache := Cached(s, step, s.pollers[p]), pollers := s.pollers[p := Polled(s, step, s.pollers[p])])
  }

  ghost function Play(s: Replica, run: seq<Happening>): Replica {
    if run == [] then s else Next(Play(s, run[..|run|-1]), run[|run|-1])
  }

  ghost predicate Start(s: Replica) {
    s.log == [] && s.cache == map[] && s.pollers == map[]
  }

  // --- The invariant ---------------------------------------------------------------

  // The rows are exactly the first `m` events of the log.
  ghost predicate CacheIs(cache: map<int, Event>, log: seq<Event>, m: nat) {
    && m <= |log|
    && (forall k :: k in cache <==> 0 < k <= m)
    && (forall k | 0 < k <= m :: cache[k] == log[k - 1])
  }

  ghost predicate StageInv(s: Replica, m: nat, p: Poller)
    requires 0 <= p.cursor <= m <= |s.log|
  {
    match p.stage
    case Answered(page) =>
      && p.cursor + |page| <= |s.log| && |page| <= PAGE
      && page == Reported(s.task, s.log[p.cursor..p.cursor + |page|])
    case Replied(_, found) =>
      p.cursor + |found| <= m && |found| <= PAGE && found == s.log[p.cursor..p.cursor + |found|]
    case _ => true
  }

  ghost predicate PollerInv(s: Replica, m: nat, p: Poller)
    requires m <= |s.log|
  {
    0 <= p.cursor <= m && p.window == s.log[Max(0, p.cursor - SHOWN)..p.cursor] && StageInv(s, m, p)
  }

  predicate Fits(log: seq<Event>, a: nat, b: nat)
    requires a <= b <= |log|
  {
    forall k | a <= k < b :: ByteLen(TextOf(log[k].body)) <= MAX_EVENT_TEXT
  }

  ghost predicate Holds(s: Replica, m: nat) {
    && Numbered(s.log) && CacheIs(s.cache, s.log, m) && Fits(s.log, 0, m)
    && forall p | p in s.pollers :: PollerInv(s, m, s.pollers[p])
  }

  // --- Preservation ------------------------------------------------------------------

  // A page read from the log is the stretch after the cursor.
  lemma AnswerIsSlice(log: seq<Event>, cursor: nat)
    requires Numbered(log) && cursor <= |log|
    ensures var page := AgentStore.PageOf(log, cursor);
            && |page| == AgentStore.Min(PAGE, |log| - cursor)
            && page == log[cursor..cursor + |page|]
  {
    AgentStore.PageSlice(log, cursor);
  }

  // The same for a page read from the cache.
  lemma LocalPageIsSlice(cache: map<int, Event>, log: seq<Event>, m: nat, cursor: nat)
    requires CacheIs(cache, log, m) && cursor <= m
    ensures var page := LocalPage(cache, cursor);
            && |page| == AgentStore.Min(PAGE, m - cursor)
            && page == log[cursor..cursor + |page|]
  {
    AscendingUpTo(cache, cursor, m);
    BetweenIsSlice(cache, log, cursor, m);
  }

  // Caching a stretch that starts no later than the cache ends leaves no gap.
  lemma {:induction false} CachingExtends(s: Replica, m: nat, a: nat, b: nat)
    requires Numbered(s.log) && CacheIs(s.cache, s.log, m) && a <= b <= |s.log| && a <= m
    ensures CacheIs(CacheAll(s.cache, Reported(s.task, s.log[a..b])), s.log, Max(m, b))
    decreases b
  {
    if a < b {
      var page := Reported(s.task, s.log[a..b]);
      assert page[..|page|-1] == Reported(s.task, s.log[a..b - 1]);
      assert page[|page|-1].event == s.log[b - 1];
      CachingExtends(s, m, a, b - 1);
    }
  }

  lemma ReportedAt(s: Replica, a: nat, b: nat, k: nat)
    requires Numbered(s.log) && a <= k < b <= |s.log|
    ensures Reported(s.task, s.log[a..b])[k - a] == RemoteEvent(s.task, s.log[k])
    ensures Acceptable(Some(s.task), Reported(s.task, s.log[a..b])[k - a]) <==> ByteLen(TextOf(s.log[k].body)) <= MAX_EVENT_TEXT
  {
    assert s.log[a..b][k - a] == s.log[k];
  }

  lemma StorableFits(s: Replica, a: nat, b: nat)
    requires Numbered(s.log) && a <= b <= |s.log|
    ensures Storable(s.task, Reported(s.task, s.log[a..b])) <==> PageBytes(s.log[a..b]) <= MAX_RESPONSE && Fits(s.log, a, b)
  {
    var page := Reported(s.task, s.log[a..b]);
    assert EventsOf(page) == s.log[a..b];
    hide Reported, Acceptable, PageBytes, EventsOf, ByteLen, TextOf;
    forall k | a <= k < b
      ensures page[k - a] in page && (Acceptable(Some(s.task), page[k - a]) <==> ByteLen(TextOf(s.log[k].body)) <= MAX_EVENT_TEXT)
    {
      ReportedAt(s, a, b, k);
    }
    if Fits(s.log, a, b) {
      forall e | e in page
        ensures Acceptable(Some(s.task), e)
      {
        var i :| 0 <= i < |page| && page[i] == e;
        assert ByteLen(TextOf(s.log[a + i].body)) <= MAX_EVENT_TEXT;
        assert page[a + i - a] == e;
      }
    }
  }

  // What a poller holds stays right while the log and the cache grow.
  lemma PollerStays(s: Replica, m: nat, t: Replica, n: nat, p: Poller)
    requires m <= |s.log| && PollerInv(s, m, p)
    requires s.log <= t.log && m <= n <= |t.log| && s.task == t.task
    ensures PollerInv(t, n, p)
  {
    match p.stage
    case Answered(page) =>
      var part := s.log[p.cursor..p.cursor + |page|];
      assert t.log[p.cursor..p.cursor + |page|] == part;
    case _ =>
  }

  lemma AnswerKeeps(s: Replica, m: nat, p: Poller)
    requires Numbered(s.log) && m <= |s.log| && PollerInv(s, m, p) && p.stage.Asked?
    ensures PollerInv(s, m, Polled(s, Answer, p))
  {
    AnswerIsSlice(s.log, p.cursor);
  }

  lemma ReadKeeps(s: Replica, m: nat, p: Poller)
    requires CacheIs(s.cache, s.log, m) && PollerInv(s, m, p) && p.stage.Synced?
    ensures PollerInv(s, m, Polled(s, Read, p))
  {
    LocalPageIsSlice(s.cache, s.log, m, p.cursor);
  }

  lemma ShowKeeps(s: Replica, m: nat, p: Poller)
    requires Numbered(s.log) && m <= |s.log| && PollerInv(s, m, p) && p.stage.Replied?
    ensures PollerInv(s, m, Polled(s, Show, p))
    ensures Polled(s, Show, p).cursor == p.cursor + |p.stage.found|
  {
    hide Merged;
    MergeMovesOn(s.log, p.cursor, p.cursor + |p.stage.found|);
  }

  lemma StepPoller(s: Replica, m: nat, step: Step, p: Poller)
    requires Numbered(s.log) && CacheIs(s.cache, s.log, m) && PollerInv(s, m, p)
    ensures PollerInv(s, m, Polled(s, step, p))
  {
    match (step, p.stage)
    case (Answer, Asked) => AnswerKeeps(s, m, p);
    case (Read, Synced(_)) => ReadKeeps(s, m, p);
    case (Show, Replied(_, _)) => ShowKeeps(s, m, p);
    case _ =>
  }

  // How far the cache reaches after a step.
  function Reach(s: Replica, m: nat, step: Step, p: Poller): (n: nat)
    ensures m <= n
  {
    if step.Store? && p.stage.Answered? && Storable(s.task, p.stage.page) then Max(m, Max(0, p.cursor) + |p.stage.page|) else m
  }

  function Held(s: Replica, m: nat, h: Happening): (n: nat)
    ensures m <= n
  {
    if h.Polls? && h.p in s.pollers then Reach(s, m, h.step, s.pollers[h.p]) else m
  }

  lemma LogHolds(s: Replica, m: nat, more: seq<Event>)
    requires Holds(s, m)
    ensures Holds(Next(s, Logs(more)), m)
  {
    var t := Next(s, Logs(more));
    forall q | q in t.pollers
      ensures PollerInv(t, m, t.pollers[q])
    {
      PollerStays(s, m, t, m, s.pollers[q]);
    }
  }

  lemma OpenHolds(s: Replica, m: nat, p: int)
    requires Holds(s, m)
    ensures Holds(Next(s, Opens(p)), m)
  {
    var t := Next(s, Opens(p));
    forall q | q in t.pollers
      ensures PollerInv(t, m, t.pollers[q])
    {
      if q in s.pollers {
        PollerStays(s, m, t, m, s.pollers[q]);
      }
    }
  }

  lemma StoreExtends(s: Replica, m: nat, p: Poller)
    requires Numbered(s.log) && CacheIs(s.cache, s.log, m) && Fits(s.log, 0, m)
    requires PollerInv(s, m, p) && p.stage.Answered? && Storable(s.task, p.stage.page)
    ensures var n := Max(m, p.cursor + |p.stage.page|);
            CacheIs(Cached(s, Store, p), s.log, n) && Fits(s.log, 0, n)
  {
    hide Reported, CacheAll, Acceptable, Storable, PageBytes, ByteLen, TextOf;
    CachingExtends(s, m, p.cursor, p.cursor + |p.stage.page|);
    StorableFits(s, p.cursor, p.cursor + |p.stage.page|);
  }

  lemma PollHolds(s: Replica, m: nat, p: int, step: Step)
    requires Holds(s, m) && p in s.pollers
    ensures Holds(Next(s, Polls(p, step)), Held(s, m, Polls(p, step)))
  {
    var t, n := Next(s, Polls(p, step)), Held(s, m, Polls(p, step));
    var poller := s.pollers[p];
    assert PollerInv(s, m, poller);
    if step.Store? && poller.stage.Answered? && Storable(s.task, poller.stage.page) {
      StoreExtends(s, m, poller);
    }
    StepPoller(s, m, step, poller);
    hide PollerInv, Polled, Storable, CacheAll, CacheIs, Fits, Numbered;
    PollersStay(s, m, t, n, p, Polled(s, step, poller));
  }

  lemma PollersStay(s: Replica, m: nat, t: Replica, n: nat, p: int, poller: Poller)
    requires m <= |s.log| && PollerInv(s, m, poller) && t.pollers == s.pollers[p := poller]
    requires forall q | q in s.pollers :: PollerInv(s, m, s.pollers[q])
    requires s.log <= t.log && m <= n <= |t.log| && s.task == t.task
    ensures forall q | q in t.pollers :: PollerInv(t, n, t.pollers[q])
  {
    hide PollerInv;
    forall q | q in t.pollers
      ensures PollerInv(t, n, t.pollers[q])
    {
      PollerStays(s, m, t, n, t.pollers[q]);
    }
  }

  lemma NextHolds(s: Replica, m: nat, h: Happening)
    requires Holds(s, m)
    ensures Holds(Next(s, h), Held(s, m, h)) && s.log <= Next(s, h).log && m <= Held(s, m, h)
  {
    match h
    case Logs(more) => LogHolds(s, m, more);
    case Opens(p) => OpenHolds(s, m, p);
    case Polls(p, step) =>
      if p in s.pollers {
        PollHolds(s, m, p, step);
      }
  }

  lemma {:induction false} PlayHolds(s: Replica, m: nat, run: seq<Happening>) returns (n: nat)
    requires Holds(s, m)
    ensures Holds(Play(s, run), n) && s.log <= Play(s, run).log && m <= n
  {
    n := m;
    if run != [] {
      var before := run[..|run|-1];
      n := PlayHolds(s, m, before);
      NextHolds(Play(s, before), n, run[|run|-1]);
      n := Held(Play(s, before), n, run[|run|-1]);
    }
  }

  ghost function Firsts(m: nat): (r: set<int>)
    ensures |r| == m && forall k :: k in r <==> 0 < k <= m
  {
    if m == 0 then {} else Firsts(m - 1) + {m}
  }

  // --- Main results ------------------------------------------------------------------

  // Whatever was lost, late or interleaved: the cache is a prefix of the agent's
  // log without gaps, and every window is the last part of what its cursor passed.
  lemma GaplessReplica(s: Replica, run: seq<Happening>)
    requires Start(s)
    ensures var t := Play(s, run);
            && Numbered(t.log) && CacheIs(t.cache, t.log, |t.cache|) && Fits(t.log, 0, |t.cache|)
            && forall p | p in t.pollers ::
                 && 0 <= t.pollers[p].cursor <= |t.cache|
                 && t.pollers[p].window == t.log[Max(0, t.pollers[p].cursor - SHOWN)..t.pollers[p].cursor]
  {
    assert Holds(s, 0);
    var m := PlayHolds(s, 0, run);
    assert Play(s, run).cache.Keys == Firsts(m);
  }

  // What `done` stored refreshes since cursor `c` are worth when `n` events were there.
  ghost predicate Gained(p: Poller, m: nat, n: nat, c: nat, done: int) {
    && done >= 0
    && var worth := AgentStore.Min(n, c + PAGE * done);
       match p.stage
       case Answered(page) => worth <= p.cursor && AgentStore.Min(n, c + PAGE * done + PAGE) <= p.cursor + |page|
       case Synced(true) => worth <= m && worth <= p.cursor + PAGE
       case Replied(true, found) => worth <= p.cursor + |found|
       case _ => worth <= p.cursor
  }

  lemma StepGains(s: Replica, m: nat, step: Step, p: Poller, n: nat, c: nat, done: int)
    requires Numbered(s.log) && CacheIs(s.cache, s.log, m) && PollerInv(s, m, p) && n <= |s.log|
    requires Gained(p, m, n, c, done)
    ensures var q := Polled(s, step, p);
            Gained(q, Reach(s, m, step, p), n, c, done + q.refreshes - p.refreshes)
  {
    match (step, p.stage)
    case (Answer, Asked) => AnswerIsSlice(s.log, p.cursor);
    case (Read, Synced(_)) => LocalPageIsSlice(s.cache, s.log, m, p.cursor);
    case (Show, Replied(_, _)) => ShowKeeps(s, m, p);
    case _ =>
  }

  lemma GainedStays(p: Poller, m: nat, n: nat, c: nat, done: int, reached: nat)
    requires Gained(p, m, n, c, done) && m <= reached
    ensures Gained(p, reached, n, c, done)
  {
  }

  // What poller `p` has gained since `s`, where it was idle.
  ghost predicate Progress(s: Replica, t: Replica, p: int, m: nat) {
    && p in s.pollers && p in t.pollers && 0 <= s.pollers[p].cursor && |s.log| <= |t.log| && m <= |t.log|
    && PollerInv(t, m, t.pollers[p])
    && Gained(t.pollers[p], m, |s.log|, s.pollers[p].cursor, t.pollers[p].refreshes - s.pollers[p].refreshes)
  }

  lemma HoldsFor(t: Replica, m: nat, p: int)
    requires Holds(t, m) && p in t.pollers
    ensures m <= |t.log| && Numbered(t.log) && CacheIs(t.cache, t.log, m) && PollerInv(t, m, t.pollers[p])
  {
  }

  lemma NextGains(s: Replica, t: Replica, p: int, m: nat, h: Happening)
    requires Progress(s, t, p, m) && Holds(t, m) && Holds(Next(t, h), Held(t, m, h)) && |t.log| <= |Next(t, h).log|
    ensures Progress(s, Next(t, h), p, Held(t, m, h))
  {
    hide Holds, PollerInv, Gained, Polled, Reach, CacheIs, Numbered;
    var u, reached := Next(t, h), Held(t, m, h);
    var q, c := t.pollers[p], s.pollers[p].cursor;
    HoldsFor(t, m, p);
    HoldsFor(u, reached, p);
    if h.Polls? && h.p == p {
      StepGains(t, m, h.step, q, |s.log|, c, q.refreshes - s.pollers[p].refreshes);
    } else {
      GainedStays(q, m, |s.log|, c, q.refreshes - s.pollers[p].refreshes, reached);
    }
  }

  lemma {:induction false} PlayGains(s: Replica, m: nat, run: seq<Happening>, p: int) returns (reached: nat)
    requires Holds(s, m) && p in s.pollers && s.pollers[p].stage.Idle?
    ensures Holds(Play(s, run), reached) && Progress(s, Play(s, run), p, reached)
  {
    reached := m;
    if run == [] {
      assert PollerInv(s, m, s.pollers[p]);
    } else {
      var before, h := run[..|run|-1], run[|run|-1];
      reached := PlayGains(s, m, before, p);
      hide Holds, Progress, Next, Held;
      NextHolds(Play(s, before), reached, h);
      NextGains(s, Play(s, before), p, reached, h);
      reached := Held(Play(s, before), reached, h);
    }
  }

  // Every stored refresh moves the cursor on by a full page or to the end of what
  // was there, whatever other windows and the agent do meanwhile.
  lemma RefreshesCatchUp(s: Replica, m: nat, run: seq<Happening>, p: int)
    requires Holds(s, m) && p in s.pollers && s.pollers[p].stage.Idle?
    requires p in Play(s, run).pollers && Play(s, run).pollers[p].stage.Idle?
    ensures var t := Play(s, run);
            var stored := t.pollers[p].refreshes - s.pollers[p].refreshes;
            && AgentStore.Min(|s.log|, s.pollers[p].cursor + PAGE * stored) <= t.pollers[p].cursor
            && (|t.log| == |s.log| && |s.log| <= s.pollers[p].cursor + PAGE * stored ==>
                  t.pollers[p].cursor == |s.log| && t.pollers[p].window == LastOf(t.log, SHOWN))
  {
    var reached := PlayGains(s, m, run, p);
    var t := Play(s, run);
    assert t.log[..|t.log|] == t.log;
  }

  lemma {:induction false} PlayAppends(s: Replica, a: seq<Happening>, b: seq<Happening>)
    ensures Play(s, a + b) == Play(Play(s, a), b)
  {
    if b == [] {
      assert a + b == a;
    } else {
      assert (a + b)[..|a + b|-1] == a + b[..|b|-1];
      PlayAppends(s, a, b[..|b|-1]);
    }
  }

  lemma PlayOne(s: Replica, run: seq<Happening>, h: Happening)
    ensures Play(s, run + [h]) == Next(Play(s, run), h)
  {
    PlayAppends(s, run, [h]);
    assert Play(Play(s, run), [h]) == Next(Play(Play(s, run), []), h);
  }
}
