// Pairing a controller with the agent: one short-lived secret at a time, few guesses.
module Pairing {
  import opened Text

  const LIFETIME: int := 300
  const ATTEMPTS: nat := 5
  const TOKEN_LENGTH: nat := 64

  datatype Session = Session(secretHash: string, expiresAt: int, attempts: nat, consumed: bool)
  datatype Controller = Controller(name: string, tokenHash: string, revokedAt: Option<int>)
  datatype Store = Store(sessions: map<int, Session>, controllers: map<int, Controller>)

  // `wellFormed` says that the lengths and the name of the request are in order.
  datatype Request = Request(session: int, secret: string, name: string, wellFormed: bool)
  datatype Outcome = InvalidRequest | Invalid | ExpiredOrUsed | Paired(controller: int)

  // --- What the transactions do ------------------------------------------------------

  predicate Open(s: Session, now: int) {
    !s.consumed && s.attempts < ATTEMPTS && now < s.expiresAt
  }

  function Created(store: Store, id: int, secretHash: string, now: int): Store {
    store.(sessions := map[id := Session(secretHash, now + LIFETIME, 0, false)])
  }

  function Answer(store: Store, digest: string -> string, r: Request, now: int, id: int): Outcome {
    if !r.wellFormed then InvalidRequest
    else if r.session !in store.sessions then Invalid
    else if !Open(store.sessions[r.session], now) then ExpiredOrUsed
    else if store.sessions[r.session].secretHash != digest(r.secret) then Invalid
    else Paired(id)
  }

  // A wrong secret for a session that could still be used.
  predicate Wrong(store: Store, digest: string -> string, r: Request, now: int) {
    && r.wellFormed && r.session in store.sessions && Open(store.sessions[r.session], now)
    && store.sessions[r.session].secretHash != digest(r.secret)
  }

  function AfterPair(store: Store, digest: string -> string, r: Request, now: int, id: int, tokenHash: string): Store {
    if Wrong(store, digest, r, now) then
      var s := store.sessions[r.session];
      store.(sessions := store.sessions[r.session := s.(attempts := s.attempts + 1)])
    else if Answer(store, digest, r, now, id).Paired? then
      var s := store.sessions[r.session];
      Store(store.sessions[r.session := s.(consumed := true)], store.controllers[id := Controller(r.name, tokenHash, None)])
    else store
  }

  function Revoked(store: Store, id: int, now: int): Store {
    if id !in store.controllers then store
    else
      var c := store.controllers[id];
      store.(controllers := store.controllers[id := c.(revokedAt := if c.revokedAt.Some? then c.revokedAt else Some(now))])
  }

  predicate Admits(c: Controller, tokenHash: string) {
    c.tokenHash == tokenHash && c.revokedAt.None?
  }

  // --- The store -------------------------------------------------------------------------

  class AccessStore {
    const digest: string -> string
    var sessions: map<int, Session>
    var controllers: map<int, Controller>

    ghost function Rows(): Store
      reads this
    {
      Store(sessions, controllers)
    }

    constructor (digest: string -> string)
      ensures this.digest == digest && Rows() == Store(map[], map[])
    {
      this.digest, sessions, controllers := digest, map[], map[];
    }

    method CreatePairing(id: int, secret: string, now: int)
      modifies this`sessions
      ensures Rows() == Created(old(Rows()), id, digest(secret), now)
    {
      sessions := map[];
      sessions := sessions[id := Session(digest(secret), now + LIFETIME, 0, false)];
    }

    method Pair(r: Request, now: int, id: int, token: string) returns (outcome: Outcome)
      requires id !in controllers
      modifies this
      ensures outcome == Answer(old(Rows()), digest, r, now, id)
      ensures Rows() == AfterPair(old(Rows()), digest, r, now, id, digest(token))
      ensures controllers == if outcome.Paired? then old(controllers)[id := Controller(r.name, digest(token), None)] else old(controllers)
      ensures sessions.Keys == old(sessions).Keys
      ensures forall k | k in sessions ::
                var s := old(sessions)[k];
                sessions[k] == if k != r.session then s
                               else if outcome.Paired? then Session(s.secretHash, s.expiresAt, s.attempts, true)
                               else if outcome.Invalid? && r.wellFormed then Session(s.secretHash, s.expiresAt, s.attempts + 1, s.consumed)
                               else s
    {
      if !r.wellFormed {
        return InvalidRequest;
      }
      if r.session !in sessions {
        return Invalid;
      }
      var row := sessions[r.session];
      if row.consumed || row.attempts >= ATTEMPTS || row.expiresAt <= now {
        return ExpiredOrUsed;
      }
      if row.secretHash != digest(r.secret) {
        sessions := sessions[r.session := row.(attempts := row.attempts + 1)];
        return Invalid;
      }
      sessions := sessions[r.session := row.(consumed := true)];
      controllers := controllers[id := Controller(r.name, digest(token), None)];
      return Paired(id);
    }

    method Authenticate(token: string) returns (id: Option<int>)
      ensures id.Some? ==>
                id.value in controllers && controllers[id.value].tokenHash == digest(token) && controllers[id.value].revokedAt == None
      ensures id.None? <==> |token| != 64 || forall c | c in controllers ::
                                controllers[c].tokenHash != digest(token) || controllers[c].revokedAt != None
    {
      if |token| != TOKEN_LENGTH {
        return None;
      }
      var hash := digest(token);
      if c :| c in controllers && Admits(controllers[c], hash) {
        return Some(c);
      }
      return None;
    }

    method Revoke(id: int, now: int) returns (found: bool)
      modifies this`controllers
      ensures found <==> id in old(controllers)
      ensures Rows() == Revoked(old(Rows()), id, now)
      ensures controllers.Keys == old(controllers).Keys
      ensures forall c | c in controllers ::
                var was := old(controllers)[c];
                && controllers[c].name == was.name && controllers[c].tokenHash == was.tokenHash
                && controllers[c].revokedAt == if c == id && was.revokedAt.None? then Some(now) else was.revokedAt
    {
      found := id in controllers;
      if found && controllers[id].revokedAt.None? {
        controllers := controllers[id := controllers[id].(revokedAt := Some(now))];
      } else if found {
        assert controllers == controllers[id := controllers[id]];
      }
    }
  }

  // --- Runs -------------------------------------------------------------------------------

  // Every call reads a clock of its own, which may also move backwards.
  datatype Call =
    | Create(id: int, secretHash: string, at: int)
    | Try(request: Request, at: int, id: int, tokenHash: string)
    | Revoke(id: int, at: int)

  function Next(store: Store, digest: string -> string, call: Call): Store {
    match call
    case Create(id, secretHash, at) => Created(store, id, secretHash, at)
    case Try(r, at, id, tokenHash) => AfterPair(store, digest, r, at, id, tokenHash)
    case Revoke(id, at) => Revoked(store, id, at)
  }

  function After(store: Store, digest: string -> string, calls: seq<Call>): Store {
    if calls == [] then store else Next(After(store, digest, calls[..|calls|-1]), digest, calls[|calls|-1])
  }

  const EMPTY := Store(map[], map[])

  // The call paired a controller through the session.
  predicate Succeeds(store: Store, digest: string -> string, call: Call, session: int) {
    call.Try? && call.request.session == session && Answer(store, digest, call.request, call.at, call.id).Paired?
  }

  predicate Guesses(store: Store, digest: string -> string, call: Call, session: int) {
    call.Try? && call.request.session == session && Wrong(store, digest, call.request, call.at)
  }

  function Successes(digest: string -> string, calls: seq<Call>, session: int): nat {
    if calls == [] then 0
    else
      var before := calls[..|calls|-1];
      Successes(digest, before, session) + if Succeeds(After(EMPTY, digest, before), digest, calls[|calls|-1], session) then 1 else 0
  }

  function WrongSecrets(digest: string -> string, calls: seq<Call>, session: int): nat {
    if calls == [] then 0
    else
      var before := calls[..|calls|-1];
      WrongSecrets(digest, before, session) + if Guesses(After(EMPTY, digest, before), digest, calls[|calls|-1], session) then 1 else 0
  }

  // Session and controller ids are made anew.
  predicate Fresh(calls: seq<Call>) {
    forall i, j | 0 <= i < j < |calls| ::
      && (calls[i].Create? && calls[j].Create? ==> calls[i].id != calls[j].id)
      && (calls[i].Try? && calls[j].Try? ==> calls[i].id != calls[j].id)
  }

  predicate CreatedIn(calls: seq<Call>, session: int) {
    exists call | call in calls :: call.Create? && call.id == session
  }

  // The row of a session counts what happened to it; without a row nothing happens.
  lemma {:induction false} RowsCount(digest: string -> string, calls: seq<Call>, session: int)
    requires Fresh(calls)
    ensures var store := After(EMPTY, digest, calls);
            var made, wrong := Successes(digest, calls, session), WrongSecrets(digest, calls, session);
            && made <= 1 && wrong <= ATTEMPTS
            && (session in store.sessions ==>
                  && made == (if store.sessions[session].consumed then 1 else 0)
                  && wrong == store.sessions[session].attempts)
            && (!CreatedIn(calls, session) ==> session !in store.sessions && made == 0 && wrong == 0)
  {
    if calls != [] {
      var before, call := calls[..|calls|-1], calls[|calls|-1];
      RowsCount(digest, before, session);
      assert call in calls && forall c | c in before :: c in calls;
      if call.Create? && call.id == session {
        assert !CreatedIn(before, session);
      }
    }
  }

  function LastCreate(calls: seq<Call>): Option<Call> {
    if calls == [] then None
    else if calls[|calls|-1].Create? then Some(calls[|calls|-1])
    else LastCreate(calls[..|calls|-1])
  }

  // The table holds the newest session and no other.
  lemma {:induction false} OnlyTheNewest(digest: string -> string, calls: seq<Call>)
    ensures var store, last := After(EMPTY, digest, calls), LastCreate(calls);
            match last
            case Some(Create(id, secretHash, at)) =>
              && store.sessions.Keys == {id}
              && store.sessions[id].secretHash == secretHash && store.sessions[id].expiresAt == at + LIFETIME
            case _ => store.sessions == map[]
    ensures LastCreate(calls).Some? ==> LastCreate(calls).value.Create?
  {
    if calls != [] {
      OnlyTheNewest(digest, calls[..|calls|-1]);
    }
  }

  // At most one controller and at most five wrong secrets for each session, ever.
  lemma SessionLimits(digest: string -> string, calls: seq<Call>, session: int)
    requires Fresh(calls)
    ensures Successes(digest, calls, session) <= 1
    ensures WrongSecrets(digest, calls, session) <= ATTEMPTS
  {
    RowsCount(digest, calls, session);
  }

  // Pairing succeeds exactly for the newest session, before it expires, with its
  // secret, if it has paired nobody and seen fewer than five wrong secrets.
  lemma PairsIff(digest: string -> string, calls: seq<Call>, r: Request, now: int, id: int)
    requires Fresh(calls)
    ensures Answer(After(EMPTY, digest, calls), digest, r, now, id).Paired? <==>
              && r.wellFormed
              && LastCreate(calls).Some? && LastCreate(calls).value.Create? && LastCreate(calls).value.id == r.session
              && LastCreate(calls).value.secretHash == digest(r.secret) && now < LastCreate(calls).value.at + LIFETIME
              && Successes(digest, calls, r.session) == 0 && WrongSecrets(digest, calls, r.session) < ATTEMPTS
  {
    RowsCount(digest, calls, r.session);
    OnlyTheNewest(digest, calls);
  }

  // A revoked controller stays revoked, since the time it was first revoked.
  lemma {:induction false} RevokedForGood(store: Store, digest: string -> string, calls: seq<Call>, c: int)
    requires c in store.controllers && store.controllers[c].revokedAt.Some?
    requires forall call | call in calls && call.Try? :: call.id != c
    ensures c in After(store, digest, calls).controllers
         && After(store, digest, calls).controllers[c] == store.controllers[c]
  {
    if calls != [] {
      var before, call := calls[..|calls|-1], calls[|calls|-1];
      assert call in calls && forall k | k in before :: k in calls;
      RevokedForGood(store, digest, before, c);
    }
  }

  // Call `i` paired controller `c` and gave it a token with this hash.
  predicate PairedBy(digest: string -> string, calls: seq<Call>, i: nat, c: int, hash: string) {
    && i < |calls| && calls[i].Try? && calls[i].id == c && calls[i].tokenHash == hash
    && Answer(After(EMPTY, digest, calls[..i]), digest, calls[i].request, calls[i].at, c) == Paired(c)
  }

  predicate RevokedAfter(calls: seq<Call>, i: nat, c: int) {
    exists j :: i < j < |calls| && calls[j].Revoke? && calls[j].id == c
  }

  // Over any run, a controller is admitted with a token if and only if some call paired
  // it with that token and no later call revoked it.
  lemma {:induction false} AdmittedIff(digest: string -> string, calls: seq<Call>, c: int, hash: string)
    requires Fresh(calls)
    ensures var rows := After(EMPTY, digest, calls).controllers;
            c in rows && rows[c].tokenHash == hash && rows[c].revokedAt.None?
            <==> exists i :: PairedBy(digest, calls, i, c, hash) && !RevokedAfter(calls, i, c)
  {
    if calls != [] {
      var n := |calls| - 1;
      var before, call := calls[..n], calls[n];
      AdmittedIff(digest, before, c, hash);
      forall i: nat | i < n
        ensures PairedBy(digest, calls, i, c, hash) <==> PairedBy(digest, before, i, c, hash)
        ensures RevokedAfter(calls, i, c) <==> RevokedAfter(before, i, c) || (call.Revoke? && call.id == c)
      {
        assert before[..i] == calls[..i];
        if RevokedAfter(before, i, c) {
          var j :| i < j < n && before[j].Revoke? && before[j].id == c;
          assert calls[j] == before[j];
        }
        if call.Revoke? && call.id == c {
          assert i < n && calls[n] == call;
        }
      }
      assert calls[..n] == before && !RevokedAfter(calls, n, c);
      LastCall(After(EMPTY, digest, before), digest, call, c);
      if call.Try? && call.id == c {
        assert forall i: nat | i < n :: !PairedBy(digest, calls, i, c, hash);
      }
    }
  }

  // What one call changes in the row of a controller.
  lemma LastCall(store: Store, digest: string -> string, call: Call, c: int)
    ensures var was, now := store.controllers, Next(store, digest, call).controllers;
            if call.Try? && call.id == c && Answer(store, digest, call.request, call.at, c) == Paired(c) then
              c in now && now[c].tokenHash == call.tokenHash && now[c].revokedAt.None?
            else
              && (c in now <==> c in was)
              && (c in now && call.Revoke? && call.id == c ==> now[c].revokedAt.Some?)
              && (c in now && !(call.Revoke? && call.id == c) ==> now[c] == was[c])
  {
  }
}
