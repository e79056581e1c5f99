// Fetching a stored result file, resuming from what an earlier attempt kept.
module Download {
  import opened Text
  import opened Range
  import opened Results
  import opened Ordering

  const BUFFER: nat := 65536
  const OK: nat := 200
  const PARTIAL_CONTENT: nat := 206

  // What the client sees of an exchange. `ends` is false when the connection
  // breaks after the chunks.
  datatype Reply = Lost | Reply(status: nat, range: Option<string>, chunks: seq<Bytes>, ends: bool)

  datatype DownloadError =
    | SizeLimit | DestinationExists | PartialSizeMismatch | Interrupted | ResponseMismatch | RangeMismatch
    | SizeMismatch | Incomplete | HashMismatch | Publish | Io
  datatype Result = Done | Failed(error: DownloadError)

  // The two files of a download: the retained part and the published file.
  datatype Files = Files(partial: Option<Bytes>, target: Option<Bytes>)

  // What the outside does to one attempt: the reply, how many bytes the disk takes
  // before a write fails or the process dies, whether another program makes the
  // target first, and whether the retained part can be removed at the end.
  datatype World = World(reply: Reply, room: nat, raced: Option<Bytes>, removed: bool)

  function Kept(f: Files): Bytes {
    if f.partial.Some? then f.partial.value else []
  }

  function Requested(retained: nat): Option<string> {
    if retained > 0 then Some(Header(retained, None)) else None
  }

  // The reply is the one asked for, with `retained` bytes already here.
  predicate Expected(size: nat, retained: nat, reply: Reply) {
    && reply.Reply?
    && reply.status == (if retained > 0 then PARTIAL_CONTENT else OK)
    && (retained > 0 && retained < size ==> reply.range == Some(ContentRange(retained, size - 1, size)))
  }

  predicate Begins(a: Artifact, f: Files) {
    a.size <= MAX_FILE && f.target.None?
  }

  // The whole rest of the file arrives and is written.
  predicate Arrives(a: Artifact, f: Files, w: World) {
    && Expected(a.size, |Kept(f)|, w.reply) && w.reply.ends
    && |Kept(f)| + |Concat(w.reply.chunks)| == a.size && |Concat(w.reply.chunks)| <= w.room
  }

  // What the retained part holds once the transfer is over: it only grows, by a
  // prefix of the body that arrived, and by all of it unless it is too long.
  ghost predicate Extended(a: Artifact, f: Files, w: World, kept: Bytes) {
    var got := if Expected(a.size, |Kept(f)|, w.reply) then Concat(w.reply.chunks) else [];
    && Kept(f) <= kept && |kept| <= Max(|Kept(f)|, a.size)
    && kept[|Kept(f)|..] <= got && |kept| - |Kept(f)| <= w.room
    && (|Kept(f)| + |got| <= a.size && |got| <= w.room ==> kept == Kept(f) + got)
  }

  predicate Whole(a: Artifact, digest: Bytes -> string, b: Bytes) {
    |b| == a.size && digest(b) == a.sha256
  }

  // Why an exchange did not bring the rest. Only when the body is too long and the
  // disk too full as well, the chunks decide which is noticed first.
  predicate TransferError(a: Artifact, f: Files, w: World, e: DownloadError)
    requires |Kept(f)| < a.size
  {
    var had := |Kept(f)|;
    if w.reply.Lost? then e == Interrupted
    else if w.reply.status != (if had > 0 then PARTIAL_CONTENT else OK) then e == ResponseMismatch
    else if had > 0 && w.reply.range != Some(ContentRange(had, a.size - 1, a.size)) then e == RangeMismatch
    else
      var got := |Concat(w.reply.chunks)|;
      if had + got > a.size && got > w.room then e == SizeMismatch || e == Io
      else if had + got > a.size then e == SizeMismatch
      else if got > w.room then e == Io
      else if !w.reply.ends then e == Interrupted
      else e == Incomplete
  }

  // How an attempt ends that was allowed to start and now holds `kept`.
  ghost predicate Ends(a: Artifact, digest: Bytes -> string, f: Files, w: World, kept: Bytes, g: Files, r: Result) {
    if |Kept(f)| < a.size && !Arrives(a, f, w) then
      g == Files(Some(kept), None) && r.Failed? && TransferError(a, f, w, r.error)
    else if !Whole(a, digest, kept) then g == Files(Some(kept), None) && r == Failed(HashMismatch)
    else if w.raced.Some? then g == Files(Some(kept), w.raced) && r == Failed(Publish)
    else if !w.removed then g == Files(Some(kept), Some(kept)) && r == Failed(Io)
    else g == Files(None, Some(kept)) && r == Done
  }

  // One attempt, in full.
  ghost predicate Attempted(a: Artifact, digest: Bytes -> string, f: Files, w: World, g: Files, r: Result) {
    if !Begins(a, f) then
      g == f && r == Failed(if a.size > MAX_FILE then SizeLimit else DestinationExists)
    else if |Kept(f)| > a.size then
      g == Files(Some(Kept(f)), None) && r == Failed(PartialSizeMismatch)
    else
      exists kept ::
        && (if |Kept(f)| < a.size then Extended(a, f, w, kept) else kept == Kept(f))
        && Ends(a, digest, f, w, kept, g, r)
  }

  class Client {
    const digest: Bytes -> string
    var files: Files

    constructor (digest: Bytes -> string)
      ensures this.digest == digest && files == Files(None, None)
    {
      this.digest := digest;
      files := Files(None, None);
    }

    // Reads the retained part through the hasher's buffer.
    method Rehash(kept: Bytes) returns (hashed: Bytes)
      ensures hashed == kept
    {
      hashed := [];
      while |hashed| < |kept|
        invariant hashed <= kept
        decreases |kept| - |hashed|
      {
        var end := if |kept| - |hashed| < BUFFER then |kept| else |hashed| + BUFFER;
        hashed := hashed + kept[|hashed|..end];
      }
    }

    // Appends the body chunk by chunk, to the file and to the hasher. A chunk that
    // passes the declared size is not written at all; one the disk has no room for
    // is written in part.
    method Receive(a: Artifact, chunks: seq<Bytes>, room: nat, hasher: Bytes)
      returns (failure: Option<DownloadError>, hashed: Bytes)
      requires files.partial.Some? && |files.partial.value| < a.size && hasher == files.partial.value
      modifies this`files
      ensures files == old(files).(partial := files.partial) && files.partial.Some?
      ensures var was, now, got := old(files).partial.value, files.partial.value, Concat(chunks);
              && was <= now && |now| <= a.size && now[|was|..] <= got && |now| - |was| <= room
              && (failure.None? <==> |was| + |got| <= a.size && |got| <= room)
              && (failure.None? ==> now == was + got && hashed == now)
      ensures failure.Some? ==>
                || (failure.value.SizeMismatch? && |old(files).partial.value| + |Concat(chunks)| > a.size)
                || (failure.value.Io? && |Concat(chunks)| > room)
    {
      var was := files.partial.value;
      var size, written := |was|, 0;
      hashed := hasher;
      assert chunks[..0] == [];
      for k := 0 to |chunks|
        invariant files.target == old(files.target) && files.partial.Some?
        invariant files.partial.value == was + Concat(chunks[..k]) && hashed == files.partial.value
        invariant written == |Concat(chunks[..k])| && written <= room && size == |was| + written <= a.size
      {
        var chunk := chunks[k];
        assert chunks[..k + 1] == chunks[..k] + [chunk];
        ConcatSnoc(chunks[..k], chunk);
        ConcatPrefix(chunks, k + 1);
        ConcatPrefix(chunks, k);
        size := size + |chunk|;
        if size > a.size {
          return Some(SizeMismatch), hashed;
        }
        if written + |chunk| > room {
          files := files.(partial := Some(files.partial.value + chunk[..room - written]));
          assert files.partial.value == was + Concat(chunks[..k + 1])[..room];
          return Some(Io), hashed;
        }
        files := files.(partial := Some(files.partial.value + chunk));
        written := written + |chunk|;
        hashed := hashed + chunk;
      }
      assert chunks[..|chunks|] == chunks;
      return None, hashed;
    }

    // Brings the rest of the file, or as much of it as comes.
    method Transfer(a: Artifact, w: World, hasher: Bytes) returns (failure: Option<DownloadError>, hashed: Bytes)
      requires files.partial.Some? && |files.partial.value| < a.size && hasher == files.partial.value
      modifies this`files
      ensures files == old(files).(partial := files.partial) && files.partial.Some?
      ensures Extended(a, old(files), w, files.partial.value)
      ensures failure.None? <==> Arrives(a, old(files), w)
      ensures failure.None? ==> hashed == files.partial.value
      ensures failure.Some? ==> TransferError(a, old(files), w, failure.value)
    {
      hide Concat, ContentRange;
      var retained := |files.partial.value|;
      hashed := hasher;
      if w.reply.Lost? {
        return Some(Interrupted), hashed;
      }
      if (retained > 0 && w.reply.status != PARTIAL_CONTENT) || (retained == 0 && w.reply.status != OK) {
        return Some(ResponseMismatch), hashed;
      }
      if retained > 0 && w.reply.range != Some(ContentRange(retained, a.size - 1, a.size)) {
        return Some(RangeMismatch), hashed;
      }
      failure, hashed := Receive(a, w.reply.chunks, w.room, hashed);
      if failure.None? && !w.reply.ends {
        return Some(Interrupted), hashed;
      }
      if failure.None? && |files.partial.value| != a.size {
        return Some(Incomplete), hashed;
      }
    }

    method Fetch(a: Artifact, w: World) returns (r: Result)
      modifies this`files
      ensures Attempted(a, digest, old(files), w, files, r)
    {
      if a.size > MAX_FILE {
        return Failed(SizeLimit);
      }
      if files.target.Some? {
        return Failed(DestinationExists);
      }
      if files.partial.None? {
        files := files.(partial := Some([]));
      }
      var retained := |files.partial.value|;
      if retained > a.size {
        return Failed(PartialSizeMismatch);
      }
      var hashed := Rehash(files.partial.value);
      if retained < a.size {
        var failure;
        failure, hashed := Transfer(a, w, hashed);
        if failure.Some? {
          assert Ends(a, digest, old(files), w, files.partial.value, files, Failed(failure.value));
          return Failed(failure.value);
        }
      }
      r := PublishFile(a, w, hashed);
      assert Ends(a, digest, old(files), w, hashed, files, r);
    }

    // Links the checked file to its name, which fails if the name is taken.
    method PublishFile(a: Artifact, w: World, hashed: Bytes) returns (r: Result)
      requires files == Files(Some(hashed), None) && |hashed| == a.size
      modifies this`files
      ensures if !Whole(a, digest, hashed) then files == old(files) && r == Failed(HashMismatch)
              else if w.raced.Some? then files == old(files).(target := w.raced) && r == Failed(Publish)
              else if !w.removed then files == Files(Some(hashed), Some(hashed)) && r == Failed(Io)
              else files == Files(None, Some(hashed)) && r == Done
    {
      if digest(hashed) != a.sha256 {
        return Failed(HashMismatch);
      }
      if w.raced.Some? {
        files := files.(target := w.raced);
        return Failed(Publish);
      }
      files := files.(target := files.partial);
      if !w.removed {
        return Failed(Io);
      }
      files := files.(partial := None);
      return Done;
    }
  }

  lemma {:induction false} ConcatPrefix(chunks: seq<Bytes>, k: nat)
    requires k <= |chunks|
    ensures Concat(chunks[..k]) <= Concat(chunks)
  {
    if k == 0 {
      assert chunks[..0] == [];
    } else {
      assert chunks[..k][1..] == chunks[1..][..k - 1];
      ConcatPrefix(chunks[1..], k - 1);
    }
  }

  // --- The agent's side ------------------------------------------------------------

  datatype Served = Unavailable(error: RangeError) | Served(status: nat, range: Option<string>, body: Bytes)

  // The answer for a stored file that is as long as its record says.
  function Serve(stored: Bytes, header: Option<string>): Served {
    match ByteRange(header, |stored|)
    case Refused(error) => Unavailable(error)
    case Window(start, length, partial) =>
      RangeWithin(header, |stored|);
      Served(
        if partial then PARTIAL_CONTENT else OK,
        if partial then Some(ContentRange(start, start + length - 1, |stored|)) else None,
        stored[start..start + length])
  }

  // The client's request for the rest is understood and answered with the rest,
  // in the words the client expects.
  lemma RestIsServed(stored: Bytes, retained: nat)
    requires retained < |stored| < U64
    ensures var served := Serve(stored, Requested(retained));
            && served.Served? && served.body == stored[retained..]
            && Expected(|stored|, retained, Reply(served.status, served.range, [served.body], true))
            && served.status == (if retained > 0 then 206 else 200)
            && served.range == (if retained > 0
                                then Some("bytes " + Print(retained) + "-" + Print(|stored| - 1) + "/" + Print(|stored|)) else None)
  {
    RangeReadsBack(retained, None, |stored|);
  }

  // A reply that comes from an agent holding `stored`: lost, an error status, or
  // what the agent served, delivered in any chunks and cut off anywhere.
  ghost predicate Honest(stored: Bytes, retained: nat, reply: Reply) {
    reply.Reply? && reply.status in {OK, PARTIAL_CONTENT} ==>
      var served := Serve(stored, Requested(retained));
      && served.Served? && reply.status == served.status && reply.range == served.range
      && Concat(reply.chunks) <= served.body && (reply.ends ==> Concat(reply.chunks) == served.body)
  }

  // --- Main results ------------------------------------------------------------------

  // Whatever the server sends: an existing file is never replaced, a file this
  // client publishes has the declared size and hash, and nothing retained is lost
  // before that.
  lemma PublishesOnlyWhole(a: Artifact, digest: Bytes -> string, f: Files, w: World, g: Files, r: Result)
    requires Attempted(a, digest, f, w, g, r)
    ensures f.target.Some? ==> g == f
    ensures f.target.None? && g.target.Some? && w.raced.None? ==> Whole(a, digest, g.target.value)
    ensures w.raced.Some? && g.target.Some? ==> g.target in {f.target, w.raced}
    ensures g.partial.Some? ==> Kept(f) <= Kept(g)
    ensures g.partial.None? && f.partial.Some? ==> r == Done && g.target.Some? && Kept(f) <= g.target.value
    ensures r == Done ==> g.target.Some? && Whole(a, digest, g.target.value) && f.target.None?
  {
  }

  lemma HonestBody(size: nat, stored: Bytes, retained: nat, reply: Reply)
    requires size == |stored| <= MAX_FILE && retained < size
    requires Honest(stored, retained, reply) && Expected(size, retained, reply)
    ensures Concat(reply.chunks) <= stored[retained..] && (reply.ends ==> Concat(reply.chunks) == stored[retained..])
  {
    RestIsServed(stored, retained);
    hide Serve, Requested, ContentRange;
  }

  // What an agent that holds the file can add is the next stretch of it.
  lemma HonestExtends(a: Artifact, stored: Bytes, f: Files, w: World, kept: Bytes)
    requires a.size == |stored| && |stored| <= MAX_FILE && |Kept(f)| < a.size
    requires Kept(f) <= stored && Honest(stored, |Kept(f)|, w.reply) && Extended(a, f, w, kept)
    ensures kept <= stored
    ensures Arrives(a, f, w) ==> kept == stored
  {
    hide Honest, Expected;
    var had := |Kept(f)|;
    if Expected(a.size, had, w.reply) {
      HonestBody(a.size, stored, had, w.reply);
    }
    hide Concat;
    assert kept == Kept(f) + kept[had..];
    assert stored == stored[..had] + stored[had..];
  }

  // Against an agent that holds the file: what is retained stays a prefix of it,
  // the hash never disagrees, and the attempt succeeds exactly when the rest
  // arrives and nothing else on this machine interferes.
  lemma HonestAttempt(a: Artifact, digest: Bytes -> string, stored: Bytes, f: Files, w: World, g: Files, r: Result)
    requires Describes(a, digest, stored) && Attempted(a, digest, f, w, g, r)
    requires Kept(f) <= stored && Honest(stored, |Kept(f)|, w.reply)
    ensures Kept(g) <= stored && r != Failed(HashMismatch)
    ensures f.target.None? && w.raced.None? && g.target.Some? ==> g.target.value == stored
    ensures r == Done <==> f.target.None? && w.raced.None? && w.removed && (Kept(f) == stored || Arrives(a, f, w))
    ensures r == Done ==> g == Files(None, Some(stored))
  {
    hide Honest, Arrives, Extended;
    if Begins(a, f) {
      var kept :|
        && (if |Kept(f)| < a.size then Extended(a, f, w, kept) else kept == Kept(f))
        && Ends(a, digest, f, w, kept, g, r);
      if |Kept(f)| < a.size {
        HonestExtends(a, stored, f, w, kept);
      } else {
        assert kept == stored;
      }
    }
  }

  // One attempt after another against the same agent, in a world of its own each.
  ghost predicate Attempts(a: Artifact, digest: Bytes -> string, stored: Bytes, f: Files, ws: seq<World>, g: Files)
    decreases |ws|
  {
    if ws == [] then f == g
    else
      exists mid, r ::
        && Honest(stored, |Kept(f)|, ws[0].reply) && Attempted(a, digest, f, ws[0], mid, r)
        && Attempts(a, digest, stored, mid, ws[1..], g)
  }

  predicate Raced(ws: seq<World>, target: Option<Bytes>) {
    exists w | w in ws :: target == w.raced
  }

  // However often the transfer breaks off, what is retained is a prefix of the
  // stored file, and the target is the stored file or what another program put there.
  lemma {:induction false} ResumedDownload(a: Artifact, digest: Bytes -> string, stored: Bytes, f: Files, ws: seq<World>, g: Files)
    requires Describes(a, digest, stored) && Attempts(a, digest, stored, f, ws, g)
    requires Kept(f) <= stored
    ensures Kept(g) <= stored
    ensures g.target == f.target || g.target == Some(stored) || Raced(ws, g.target)
    ensures f.target.Some? ==> g == f
    decreases |ws|
  {
    if ws != [] {
      var mid, r :|
        && Honest(stored, |Kept(f)|, ws[0].reply) && Attempted(a, digest, f, ws[0], mid, r)
        && Attempts(a, digest, stored, mid, ws[1..], g);
      hide Honest, Attempted;
      HonestAttempt(a, digest, stored, f, ws[0], mid, r);
      PublishesOnlyWhole(a, digest, f, ws[0], mid, r);
      ResumedDownload(a, digest, stored, mid, ws[1..], g);
      hide Attempts, Whole;
      assert ws[0] in ws && forall w | w in ws[1..] :: w in ws;
    }
  }
}
