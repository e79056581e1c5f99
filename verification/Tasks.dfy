// The agent's task rows and their event logs, and what one store transaction
// does to one of them.
module Tasks {
  import opened Text

  const MAX_OUTPUT_BYTES: nat := 16 * 1024 * 1024
  const MAX_WAITING: nat := 100
  const PAGE: nat := 200

  datatype RemoteState =
    | Queued | Starting | Running | Cancelling
    | Succeeded | Failed | Cancelled | TimedOut | RecoveryRequired
  {
    predicate Terminal() {
      Succeeded? || Failed? || Cancelled? || TimedOut? || RecoveryRequired?
    }

    // The states recovery looks for.
    predicate Active() {
      Starting? || Running? || Cancelling?
    }

    // The states from which a process may still be started or left to run.
    predicate Runnable() {
      Queued? || Starting? || Running?
    }

    function Rank(): nat {
      match this
      case Queued => 4
      case Starting => 3
      case Running => 2
      case Cancelling => 1
      case _ => 0
    }
  }

  datatype ResultStatus = NotRequested | Pending | Complete | Incomplete

  datatype Stream = Stdout | Stderr

  // A request is its id and its content. The content hash covers everything but
  // the id, so comparing hashes is comparing contents.
  datatype Content = Content(wantsResults: bool, command: string)
  datatype Request = Request(id: int, content: Content)

  function ContentHash(r: Request): Content {
    r.content
  }

  // `complete` tells the two result messages apart.
  datatype EventBody =
    | Moved(to: RemoteState, note: string)
    | Printed(stream: Stream, text: Str)
    | OutputTruncated
    | Results(complete: bool, note: string)
  datatype Event = Event(number: nat, body: EventBody)

  datatype Task = Task(
    controller: int,
    request: Request,
    createdAt: int,
    state: RemoteState,
    result: ResultStatus,
    bytes: nat,
    truncated: bool,
    progress: Option<real>,
    exitCode: Option<int>,
    error: Option<string>,
    log: seq<Event>)
  {
    predicate WantsResults() {
      request.content.wantsResults
    }
  }

  // --- The texts of the events ------------------------------------------------

  const NOTE_ACCEPTED := "任务已持久接受"
  const NOTE_CLAIMED := "准备启动执行实例"
  const NOTE_DEQUEUED := "排队任务已取消"
  const NOTE_CANCELLING := "正在取消执行实例"
  const NOTE_CANCELLED_EARLY := "启动前已取消"
  const NOTE_STARTED := "进程已启动"
  const NOTE_TIMED_OUT := "任务超时，正在结束进程"
  const NOTE_TRUNCATED := "日志超过 16 MiB，后续输出不再保留；任务继续运行"
  const NOTE_COLLECTED := "结果文件已复制并生成校验清单"
  const NOTE_INCOMPLETE := "结果收集不完整："
  const NOTE_UNRESOLVED := "执行端在结果收集确认前重启；结果不完整，任务不会重跑"
  const RECOVERY_NOTE := "执行端重启，无法确认外部进程结果；不会自动重跑"

  // The message of the final transition of a process that was seen to its end.
  function NoteOf(final: RemoteState): string {
    match final
    case Succeeded => "进程正常退出"
    case Cancelled => "执行实例已取消"
    case TimedOut => "执行实例因超时结束"
    case _ => "进程以非零状态退出"
  }

  // What `collect` writes about its outcome.
  function CollectNote(problem: Option<string>): string {
    if problem.None? then NOTE_COLLECTED else NOTE_INCOMPLETE + problem.value
  }

  function Scalars(s: string): Str {
    seq(|s|, i requires 0 <= i < |s| => s[i] as int)
  }

  function TextOf(body: EventBody): Str {
    match body
    case Moved(_, note) => Scalars(note)
    case Printed(_, text) => text
    case OutputTruncated => Scalars(NOTE_TRUNCATED)
    case Results(_, note) => Scalars(note)
  }

  // --- Progress reports ------------------------------------------------------

  // The number under "percent" of a JSON text, if it is an object with one. What
  // counts as JSON is not specified here.
  const JSON_PERCENT: Str -> Option<real>

  const CARRIAGE_RETURN: Scalar := 0x0D
  const PROGRESS_PREFIX := "TAILTASK_PROGRESS "

  // `trim_end_matches(['\n', '\r'])`
  function TrimEnd(line: Str): Str {
    if line != [] && (line[|line|-1] == NEWLINE || line[|line|-1] == CARRIAGE_RETURN) then TrimEnd(line[..|line|-1]) else line
  }

  function ReportedProgress(line: Str): (p: Option<real>)
    ensures p.Some? ==> 0.0 <= p.value <= 100.0
  {
    var text, prefix := TrimEnd(line), Scalars(PROGRESS_PREFIX);
    if !(prefix <= text) then None
    else
      var percent := JSON_PERCENT(text[|prefix|..]);
      if percent.Some? && 0.0 <= percent.value <= 100.0 then percent else None
  }

  predicate EndsLine(c: Scalar) {
    c == 0x0A || c == 0x0D
  }

  predicate LineEnds(ends: Str) {
    forall c | c in ends :: EndsLine(c)
  }

  lemma {:induction false} TrimsLineEnds(body: Str, ends: Str)
    requires (body != [] ==> !EndsLine(body[|body|-1])) && LineEnds(ends)
    ensures TrimEnd(body + ends) == body
  {
    var n := |ends| - 1;
    if ends == [] {
      assert body + ends == body;
    } else {
      assert ends[n] in ends && forall c | c in ends[..n] :: c in ends;
      assert (body + ends)[..|body| + n] == body + ends[..n];
      TrimsLineEnds(body, ends[..n]);
    }
  }

  // Any line is a body and the line ends after it, and reports a number if and only if
  // the body is the marker and a JSON text with a percentage from 0 to 100.
  lemma ProgressIff(body: Str, ends: Str)
    requires (body != [] ==> !EndsLine(body[|body|-1])) && LineEnds(ends)
    ensures var marker := Scalars("TAILTASK_PROGRESS ");
            var found := if marker <= body then JSON_PERCENT(body[|marker|..]) else None;
            ReportedProgress(body + ends) == if found.Some? && 0.0 <= found.value <= 100.0 then found else None
  {
    TrimsLineEnds(body, ends);
  }

  lemma {:induction false} LineHasBody(line: Str) returns (body: Str, ends: Str)
    ensures line == body + ends && LineEnds(ends) && (body != [] ==> !EndsLine(body[|body|-1]))
  {
    if line != [] && EndsLine(line[|line|-1]) {
      body, ends := LineHasBody(line[..|line|-1]);
      ends := ends + [line[|line|-1]];
    } else {
      body, ends := line, [];
    }
  }

  // --- What the transactions do ---------------------------------------------

  function MaxSeq(log: seq<Event>): (m: nat)
    ensures forall e | e in log :: e.number <= m
  {
    if log == [] then 0
    else
      var m, n := MaxSeq(log[..|log|-1]), log[|log|-1].number;
      if n > m then n else m
  }

  // Adds an event numbered one above the highest number in the log.
  function Append(t: Task, body: EventBody): Task {
    t.(log := t.log + [Event(MaxSeq(t.log) + 1, body)])
  }

  function Accepted(controller: int, request: Request, at: int): Task {
    Append(
      Task(controller, request, at, Queued, if request.content.wantsResults then Pending else NotRequested,
           0, false, None, None, None, []),
      Moved(Queued, NOTE_ACCEPTED))
  }

  lemma AcceptedRow(controller: int, request: Request, at: int)
    ensures Accepted(controller, request, at)
         == Task(controller, request, at, Queued, if request.content.wantsResults then Pending else NotRequested,
                 0, false, None, None, None, [Event(1, Moved(Queued, "任务已持久接受"))])
  {
  }

  function Claimed(t: Task): Task {
    Append(t.(state := Starting), Moved(Starting, NOTE_CLAIMED))
  }

  predicate Moves(t: Task, from: set<RemoteState>) {
    t.state in from && !t.state.Terminal()
  }

  function ResultAfterMove(before: RemoteState, result: ResultStatus, to: RemoteState): ResultStatus {
    if result == Pending && (to == RecoveryRequired || (to.Terminal() && (before == Queued || before == Starting)))
    then Incomplete else result
  }

  // The conditional state change every handler goes through.
  function Transition(t: Task, from: set<RemoteState>, to: RemoteState, exit: Option<int>, note: string): Task {
    if !Moves(t, from) then t
    else
      Append(
        t.(state := to,
           exitCode := exit,
           error := if to == Failed || to == RecoveryRequired then Some(note) else None,
           result := ResultAfterMove(t.state, t.result, to)),
        Moved(to, note))
  }

  // One piece of output, kept while the budget lasts.
  function Output(t: Task, stream: Stream, text: Str): Task {
    if t.bytes + ByteLen(text) > MAX_OUTPUT_BYTES then
      if t.truncated then t else Append(t, OutputTruncated).(truncated := true)
    else
      var u := Append(t.(bytes := t.bytes + ByteLen(text)), Printed(stream, text));
      if stream == Stdout && ReportedProgress(text).Some? then u.(progress := ReportedProgress(text)) else u
  }

  function Collected(t: Task, complete: bool, note: string): Task {
    Append(t.(result := if complete then Complete else Incomplete), Results(complete, note))
  }

  function Interrupted(t: Task): Task {
    Transition(t, {Starting, Running, Cancelling}, RecoveryRequired, None, RECOVERY_NOTE)
  }

  lemma InterruptedIs(t: Task)
    ensures Interrupted(t) == Transition(t, {Starting, Running, Cancelling}, RecoveryRequired, None, RECOVERY_NOTE)
  {
  }

  function Unresolved(t: Task): Task {
    if t.result == Pending && t.state.Terminal() then Collected(t, false, NOTE_UNRESOLVED) else t
  }

  // --- What a log says ----------------------------------------------------------

  predicate Numbered(log: seq<Event>) {
    forall i | 0 <= i < |log| :: log[i].number == i + 1
  }

  // The columns of a row that the log determines.
  datatype Columns = Columns(
    state: RemoteState, result: ResultStatus, bytes: nat, truncated: bool, progress: Option<real>, error: Option<string>)

  function Apply(c: Columns, body: EventBody): Columns {
    match body
    case Moved(to, note) =>
      c.(state := to,
         error := if to == Failed || to == RecoveryRequired then Some(note) else None,
         result := ResultAfterMove(c.state, c.result, to))
    case Printed(stream, text) =>
      c.(bytes := c.bytes + ByteLen(text),
         progress := if stream == Stdout && ReportedProgress(text).Some? then ReportedProgress(text) else c.progress)
    case OutputTruncated => c.(truncated := true)
    case Results(complete, note) => c.(result := if complete then Complete else Incomplete)
  }

  // Reads a log from its first event to its last.
  function Replay(wantsResults: bool, log: seq<Event>): Columns {
    if log == [] then Columns(Queued, if wantsResults then Pending else NotRequested, 0, false, None, None)
    else Apply(Replay(wantsResults, log[..|log|-1]), log[|log|-1].body)
  }

  function ColumnsOf(t: Task): Columns {
    Columns(t.state, t.result, t.bytes, t.truncated, t.progress, t.error)
  }

  // The texts a log retains of one stream, in order.
  function Retained(log: seq<Event>, stream: Stream): seq<Str> {
    if log == [] then []
    else
      var body := log[|log|-1].body;
      Retained(log[..|log|-1], stream) + (if body.Printed? && body.stream == stream then [body.text] else [])
  }

  function Total(texts: seq<Str>): nat {
    if texts == [] then 0 else Total(texts[..|texts|-1]) + ByteLen(texts[|texts|-1])
  }

  function Truncations(log: seq<Event>): nat {
    if log == [] then 0
    else Truncations(log[..|log|-1]) + (if log[|log|-1].body.OutputTruncated? then 1 else 0)
  }

  function StateEvents(log: seq<Event>): nat {
    if log == [] then 0
    else StateEvents(log[..|log|-1]) + (if log[|log|-1].body.Moved? then 1 else 0)
  }

  // The row and its log agree: numbers are 1..n, every column is a replay of the
  // log, and the output budget is kept.
  ghost predicate Sound(t: Task) {
    && t.log != []
    && Numbered(t.log)
    && ColumnsOf(t) == Replay(t.WantsResults(), t.log)
    && t.bytes == Total(Retained(t.log, Stdout)) + Total(Retained(t.log, Stderr)) <= MAX_OUTPUT_BYTES
    && Truncations(t.log) == (if t.truncated then 1 else 0)
    && (t.error.Some? ==> t.state == Failed || t.state == RecoveryRequired)
  }

  // --- Every transaction keeps row and log in agreement -----------------------

  lemma {:induction false} MaxSeqNumbered(log: seq<Event>)
    requires Numbered(log)
    ensures MaxSeq(log) == |log|
  {
    if log != [] {
      MaxSeqNumbered(log[..|log|-1]);
    }
  }

  lemma TotalSnoc(texts: seq<Str>, text: Str)
    ensures Total(texts + [text]) == Total(texts) + ByteLen(text)
  {
    assert (texts + [text])[..|texts|] == texts;
  }

  // What an added event does to every reading of the log.
  lemma AppendReads(t: Task, body: EventBody)
    requires Numbered(t.log)
    ensures var log := Append(t, body).log;
            && log == t.log + [Event(|t.log| + 1, body)]
            && Numbered(log)
            && Replay(t.WantsResults(), log) == Apply(Replay(t.WantsResults(), t.log), body)
            && Truncations(log) == Truncations(t.log) + (if body.OutputTruncated? then 1 else 0)
            && StateEvents(log) == StateEvents(t.log) + (if body.Moved? then 1 else 0)
            && (forall s :: Retained(log, s)
                            == Retained(t.log, s) + (if body.Printed? && body.stream == s then [body.text] else []))
  {
    MaxSeqNumbered(t.log);
    var log := Append(t, body).log;
    assert log[..|log|-1] == t.log;
  }

  lemma AcceptedSound(controller: int, request: Request, at: int)
    ensures Sound(Accepted(controller, request, at))
    ensures StateEvents(Accepted(controller, request, at).log) == 1
  {
    var t := Task(controller, request, at, Queued, if request.content.wantsResults then Pending else NotRequested,
                  0, false, None, None, None, []);
    AppendReads(t, Moved(Queued, NOTE_ACCEPTED));
    assert Retained(Accepted(controller, request, at).log, Stdout) == [];
    assert Retained(Accepted(controller, request, at).log, Stderr) == [];
  }

  lemma ClaimedSound(t: Task)
    requires Sound(t) && t.state == Queued
    ensures Sound(Claimed(t))
  {
    AppendReads(t, Moved(Starting, NOTE_CLAIMED));
    assert forall s :: Retained(Claimed(t).log, s) == Retained(t.log, s);
  }

  lemma TransitionSound(t: Task, from: set<RemoteState>, to: RemoteState, exit: Option<int>, note: string)
    requires Sound(t)
    ensures Sound(Transition(t, from, to, exit, note))
  {
    AppendReads(t, Moved(to, note));
    assert forall s :: Retained(t.log, s) + [] == Retained(t.log, s);
  }

  lemma OutputSound(t: Task, stream: Stream, text: Str)
    requires Sound(t)
    ensures Sound(Output(t, stream, text))
  {
    if t.bytes + ByteLen(text) > MAX_OUTPUT_BYTES {
      AppendReads(t, OutputTruncated);
      assert forall s :: Retained(t.log, s) + [] == Retained(t.log, s);
    } else {
      PrintedSound(t, stream, text);
    }
  }

  lemma PrintedSound(t: Task, stream: Stream, text: Str)
    requires Sound(t) && t.bytes + ByteLen(text) <= MAX_OUTPUT_BYTES
    ensures Sound(Output(t, stream, text))
  {
    hide Retained, Total, Replay, Truncations, StateEvents, ByteLen, MaxSeq;
    var u := Output(t, stream, text);
    assert t.(bytes := t.bytes + ByteLen(text)).WantsResults() == t.WantsResults();
    AppendReads(t.(bytes := t.bytes + ByteLen(text)), Printed(stream, text));
    assert u.log == Append(t.(bytes := t.bytes + ByteLen(text)), Printed(stream, text)).log;
    PrintedTotals(t.log, u.log, stream, text);
  }

  // A piece is retained exactly when it still fits, whatever was left out before.
  lemma KeptIffFits(t: Task, stream: Stream, text: Str)
    ensures var u := Output(t, stream, text);
            && Retained(u.log, stream) == Retained(t.log, stream) + (if t.bytes + ByteLen(text) <= MAX_OUTPUT_BYTES then [text] else [])
            && (t.bytes + ByteLen(text) > MAX_OUTPUT_BYTES ==> u.truncated && u.bytes == t.bytes)
  {
    var u := Output(t, stream, text);
    if u.log != t.log {
      assert u.log[..|u.log|-1] == t.log;
    }
  }

  lemma PrintedTotals(log: seq<Event>, next: seq<Event>, stream: Stream, text: Str)
    requires forall s :: Retained(next, s) == Retained(log, s) + (if s == stream then [text] else [])
    ensures Total(Retained(next, Stdout)) + Total(Retained(next, Stderr))
            == Total(Retained(log, Stdout)) + Total(Retained(log, Stderr)) + ByteLen(text)
  {
    TotalSnoc(Retained(log, stream), text);
    var other := if stream == Stdout then Stderr else Stdout;
    assert Retained(log, other) + [] == Retained(log, other);
  }

  lemma CollectedSound(t: Task, complete: bool, note: string)
    requires Sound(t)
    ensures Sound(Collected(t, complete, note))
  {
    AppendReads(t, Results(complete, note));
    assert forall s :: Retained(t.log, s) + [] == Retained(t.log, s);
  }

  // --- Recovery of one row ----------------------------------------------------

  function Recovered(t: Task): Task {
    Unresolved(Interrupted(t))
  }

  // Recovery may stop after the first half and be run again from the start; the
  // outcome is that of one uninterrupted pass, and a further pass changes nothing.
  lemma RecoveryConverges(t: Task)
    ensures Recovered(Interrupted(t)) == Recovered(t)
    ensures Recovered(Recovered(t)) == Recovered(t)
  {
  }

  lemma RecoverySettles(t: Task)
    ensures var u := Recovered(t);
            && !u.state.Active()
            && !(u.state.Terminal() && u.result == Pending)
            && (t.state == Queued ==> u == t)
            && (t.state.Terminal() ==> u.state == t.state && u.exitCode == t.exitCode && u.error == t.error)
            && (t.state.Active() ==> u.state == RecoveryRequired)
            && t.log <= u.log && |u.log| <= |t.log| + 1
            && u.result == (if t.result == Pending && t.state != Queued then Incomplete else t.result)
            && u == t.(state := u.state, result := u.result, exitCode := u.exitCode, error := u.error, log := u.log)
            && (|u.log| > |t.log| ==>
                  TextOf(u.log[|t.log|].body)
                  == Scalars(if t.state.Active() then "执行端重启，无法确认外部进程结果；不会自动重跑"
                             else "执行端在结果收集确认前重启；结果不完整，任务不会重跑"))
  {
    hide MaxSeq;
  }

  lemma RecoveredSound(t: Task)
    requires Sound(t)
    ensures Sound(Interrupted(t)) && Sound(Unresolved(t)) && Sound(Recovered(t))
  {
    TransitionSound(t, {Starting, Running, Cancelling}, RecoveryRequired, None, RECOVERY_NOTE);
    CollectedSound(t, false, NOTE_UNRESOLVED);
    CollectedSound(Interrupted(t), false, NOTE_UNRESOLVED);
    hide Sound, Transition, Collected;
  }
}
