// The controller's durable store: the history of submissions and the events
// observed for them.
module ControllerStore {
  import opened Text
  import opened Tasks
  import opened Ordering
  import Results

  // `submission_state`; the fourth value of the schema is never written.
  datatype Submission = Prepared | SubmissionUnknown | Accepted

  // A task as the agent reports it.
  datatype TaskView = TaskView(id: int, controller: int, request: Request, state: RemoteState)

  // `controller` is the controller id in the target snapshot taken at preparation.
  datatype History = History(
    connection: int, controller: int, request: Request, submission: Submission, remoteId: Option<int>, lastTask: Option<TaskView>)

  datatype RemoteEvent = RemoteEvent(taskId: int, event: Event)

  const MAX_EVENT_TEXT: nat := 65536

  // `context` and `node` name the peer; `controller` is the id it gave this controller.
  datatype Connection = Connection(id: int, context: int, node: int, agent: int, controller: int, credential: int)

  datatype ControllerError =
    | ConnectionIdMismatch | TargetChanged | Database
    | TaskNotConfirmed | ArtifactMismatch | ArtifactLimit
    | InvalidRequest | ConnectionNotFound | IdempotencyConflict | HistoryNotFound | ResponseMismatch | EventMismatch
  datatype Result<+T> = Ok(value: T) | Err(error: ControllerError)

  function NewHistory(connection: int, controller: int, request: Request): History {
    History(connection, controller, request, Prepared, None, None)
  }

  function MarkedUnknown(h: History): History {
    if h.submission.Accepted? then h else h.(submission := SubmissionUnknown)
  }

  // The check of `record_task`, and its write, which are separate steps.
  predicate Matches(h: History, v: TaskView) {
    h.request == v.request && h.controller == v.controller && (h.remoteId.None? || h.remoteId.value == v.id)
  }

  function Recorded(h: History, v: TaskView): History {
    h.(submission := Accepted, remoteId := Some(v.id), lastTask := Some(v))
  }

  predicate SamePeer(c: Connection, d: Connection) {
    c.context == d.context && c.node == d.node
  }

  // The keys of the table: an id names one row, and a peer has one row.
  ghost predicate OnePerPeer(connections: map<int, Connection>) {
    && (forall id | id in connections :: connections[id].id == id)
    && (forall i, j | i in connections && j in connections && SamePeer(connections[i], connections[j]) :: i == j)
  }

  ghost predicate OnePerRequest(histories: map<int, History>) {
    forall i, j | i in histories && j in histories
               && IsHistory(histories[i], histories[j].connection, histories[j].request.id) :: i == j
  }

  predicate IsHistory(h: History, connection: int, requestId: int) {
    h.connection == connection && h.request.id == requestId
  }

  predicate Acceptable(remoteId: Option<int>, e: RemoteEvent) {
    remoteId == Some(e.taskId) && e.event.number >= 1 && ByteLen(TextOf(e.event.body)) <= MAX_EVENT_TEXT
  }

  // INSERT OR IGNORE, event by event.
  function CacheAll(cache: map<int, Event>, page: seq<RemoteEvent>): map<int, Event> {
    if page == [] then cache
    else
      var before := CacheAll(cache, page[..|page|-1]);
      var e := page[|page|-1].event;
      if e.number in before then before else before[e.number := e]
  }

  // The events kept locally, a page at a time.
  ghost function LocalPage(cache: map<int, Event>, after: int): seq<Event> {
    var found := Ascending(cache, Max(after, 0));
    if |found| <= PAGE then found else found[..PAGE]
  }

  class ControllerStore {
    var connections: map<int, Connection>
    var histories: map<int, History>
    var observations: map<int, map<int, Event>>
    var artifacts: map<int, seq<Results.Artifact>>

    constructor ()
      ensures connections == map[] && histories == map[] && observations == map[] && artifacts == map[]
    {
      connections, histories, observations, artifacts := map[], map[], map[], map[];
    }

    // The cached events of a history; none have been cached for a new one.
    function Cached(id: int): map<int, Event>
      reads this`observations
    {
      if id in observations then observations[id] else map[]
    }

    // Pairing again keeps the connection id of the peer, and no id changes its peer.
    method SaveConnection(c: Connection) returns (r: Result<()>)
      requires OnePerPeer(connections)
      modifies this`connections
      ensures OnePerPeer(connections)
      ensures r == if exists id | id in old(connections) :: SamePeer(old(connections)[id], c) && id != c.id
                   then Err(ConnectionIdMismatch)
                   else if (c.id in old(connections) && !SamePeer(old(connections)[c.id], c))
                           || exists id | id in old(connections) :: old(connections)[id].credential == c.credential && id != c.id
                   then Err(Database)
                   else Ok(())
      ensures connections == if r.Ok? then old(connections)[c.id := c] else old(connections)
      ensures forall id | id in old(connections) ::
                && id in connections && connections[id].context == old(connections)[id].context
                && connections[id].node == old(connections)[id].node
      ensures r == Err(ConnectionIdMismatch) <==>
                exists id | id in old(connections) ::
                  old(connections)[id].context == c.context && old(connections)[id].node == c.node && id != c.id
    {
      if exists id | id in connections :: SamePeer(connections[id], c) && connections[id].id != c.id {
        return Err(ConnectionIdMismatch);
      }
      // the primary key, and the unique credential
      if c.id in connections && !SamePeer(connections[c.id], c) {
        return Err(Database);
      }
      if exists id | id in connections :: connections[id].credential == c.credential && id != c.id {
        return Err(Database);
      }
      connections := connections[c.id := c];
      return Ok(());
    }

    // Writes the history row ahead of the submission, once for each request id.
    // `valid` is the outcome of the first checks; `agent` and `node` are the target
    // the request names.
    method Prepare(connection: int, request: Request, agent: int, node: int, valid: bool, newId: int) returns (r: Result<int>)
      requires newId !in histories && OnePerRequest(histories)
      modifies this`histories
      ensures OnePerRequest(histories)
      ensures if !valid then r == Err(InvalidRequest)
              else if connection !in connections then r == Err(ConnectionNotFound)
              else if connections[connection].agent != agent || connections[connection].node != node then r == Err(TargetChanged)
              else if exists id | id in old(histories) :: IsHistory(old(histories)[id], connection, request.id) then
                && (forall id | id in old(histories) && IsHistory(old(histories)[id], connection, request.id) ::
                      r == if old(histories)[id].request == request then Ok(id) else Err(IdempotencyConflict))
              else r == Ok(newId)
      ensures histories == if r == Ok(newId)
                           then old(histories)[newId := NewHistory(connection, connections[connection].controller, request)]
                           else old(histories)
      ensures r == Ok(newId) ==>
                && (forall id | id in old(histories) ::
                      old(histories)[id].connection != connection || old(histories)[id].request.id != request.id)
                && newId in histories && histories[newId]
                == History(connection, connections[connection].controller, request, Prepared, None, None)
    {
      if !valid {
        return Err(InvalidRequest);
      }
      if connection !in connections {
        return Err(ConnectionNotFound);
      }
      if connections[connection].agent != agent || connections[connection].node != node {
        return Err(TargetChanged);
      }
      var hash := ContentHash(request);
      if id :| id in histories && IsHistory(histories[id], connection, request.id) {
        if ContentHash(histories[id].request) != hash {
          return Err(IdempotencyConflict);
        }
        assert histories[id].request == request;
        return Ok(id);
      }
      histories := histories[newId := NewHistory(connection, connections[connection].controller, request)];
      return Ok(newId);
    }

    method MarkUnknown(id: int)
      modifies this`histories
      ensures histories == if id in old(histories) then old(histories)[id := MarkedUnknown(old(histories)[id])] else old(histories)
      ensures id in old(histories) ==>
                var h := old(histories)[id];
                && id in histories && histories[id] == h.(submission := histories[id].submission)
                && histories[id].submission == if h.submission == Submission.Accepted then Submission.Accepted else SubmissionUnknown
    {
      if id in histories && (histories[id].submission.Prepared? || histories[id].submission.SubmissionUnknown?) {
        histories := histories[id := histories[id].(submission := SubmissionUnknown)];
      } else if id in histories {
        assert histories == histories[id := histories[id]];
      }
    }

    method RecordTask(id: int, view: TaskView) returns (r: Result<()>)
      modifies this`histories
      ensures r == (if id !in old(histories) then Err(HistoryNotFound)
                    else if !Matches(old(histories)[id], view) then Err(ResponseMismatch) else Ok(()))
      ensures histories == if r.Ok? then old(histories)[id := Recorded(old(histories)[id], view)] else old(histories)
      ensures r.Ok? <==> id in old(histories)
                         && old(histories)[id].request == view.request && old(histories)[id].controller == view.controller
                         && (old(histories)[id].remoteId == None || old(histories)[id].remoteId == Some(view.id))
      ensures r.Ok? ==>
                var h := old(histories)[id];
                id in histories && histories[id] == History(h.connection, h.controller, h.request, Submission.Accepted, Some(view.id), Some(view))
    {
      if id !in histories {
        return Err(HistoryNotFound);
      }
      if !Matches(histories[id], view) {
        return Err(ResponseMismatch);
      }
      histories := histories[id := Recorded(histories[id], view)];
      return Ok(());
    }

    // Caches a page of events, all of it or nothing.
    method CacheEvents(id: int, page: seq<RemoteEvent>) returns (r: Result<()>)
      modifies this`observations
      ensures r.Ok? <==> id in histories && forall e | e in page ::
                             histories[id].remoteId == Some(e.taskId) && e.event.number >= 1 && ByteLen(TextOf(e.event.body)) <= 65536
      ensures observations == if r.Ok? then old(observations)[id := CacheAll(old(Cached(id)), page)] else old(observations)
    {
      if id !in histories {
        return Err(HistoryNotFound);
      }
      var cache := Cached(id);
      assert page[..0] == [];
      for k := 0 to |page|
        invariant cache == CacheAll(Cached(id), page[..k])
        invariant forall i | 0 <= i < k :: Acceptable(histories[id].remoteId, page[i])
      {
        if !Acceptable(histories[id].remoteId, page[k]) {
          return Err(EventMismatch);
        }
        assert page[..k + 1][..k] == page[..k];
        if page[k].event.number !in cache {
          cache := cache[page[k].event.number := page[k].event];
        }
      }
      assert page[..|page|] == page;
      observations := observations[id := cache];
      return Ok(());
    }

    method Events(id: int, after: int) returns (r: Result<seq<Event>>)
      ensures r.Ok? <==> id in histories
      ensures r.Ok? ==> r.value == LocalPage(Cached(id), after)
    {
      if id !in histories {
        return Err(HistoryNotFound);
      }
      var found := InOrder(Cached(id), if after < 0 then 0 else after);
      return Ok(if |found| <= PAGE then found else found[..PAGE]);
    }

    // Replaces the list of result files of a history, if all of it is acceptable.
    method CacheArtifacts(id: int, list: seq<Results.Artifact>) returns (r: Result<()>)
      modifies this`artifacts
      ensures r.Ok? <==> id in histories && histories[id].remoteId.Some? && Results.Cacheable(histories[id].remoteId.value, list)
      ensures artifacts == if r.Ok? then old(artifacts)[id := list] else old(artifacts)
    {
      if id !in histories {
        return Err(HistoryNotFound);
      }
      if histories[id].remoteId.None? {
        return Err(TaskNotConfirmed);
      }
      var verdict := Results.CheckArtifacts(histories[id].remoteId.value, list);
      match verdict {
        case Mismatch => return Err(ArtifactMismatch);
        case Limit => return Err(ArtifactLimit);
        case Cached =>
          artifacts := artifacts[id := list];
          return Ok(());
      }
    }
  }
}
