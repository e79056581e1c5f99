// Which output a task retains: when what is kept of a stream is a beginning of it.
// Both streams of a process share one budget.
module Retention {
  import opened Text
  import opened Tasks

  // A piece of one of the two streams, as the readers send it to the executor.
  datatype Piece = Piece(stream: Stream, text: Str)

  // A row after these pieces.
  function Fed(t: Task, pieces: seq<Piece>): Task {
    if pieces == [] then t
    else Output(Fed(t, pieces[..|pieces|-1]), pieces[|pieces|-1].stream, pieces[|pieces|-1].text)
  }

  lemma FedSnoc(t: Task, pieces: seq<Piece>, last: Piece)
    ensures Fed(t, pieces + [last]) == Output(Fed(t, pieces), last.stream, last.text)
  {
    assert (pieces + [last])[..|pieces|] == pieces;
  }

  function Size(pieces: seq<Piece>): nat {
    if pieces == [] then 0 else Size(pieces[..|pieces|-1]) + ByteLen(pieces[|pieces|-1].text)
  }

  // The texts of one stream, in order.
  function TextsOf(pieces: seq<Piece>, stream: Stream): seq<Str> {
    if pieces == [] then []
    else
      var last := pieces[|pieces|-1];
      TextsOf(pieces[..|pieces|-1], stream) + if last.stream == stream then [last.text] else []
  }

  // What is kept of the pieces when `used` bytes are taken already.
  function Keep(used: nat, pieces: seq<Piece>): (kept: seq<Piece>)
    ensures |kept| <= |pieces|
  {
    if pieces == [] then []
    else
      var kept, last := Keep(used, pieces[..|pieces|-1]), pieces[|pieces|-1];
      if used + Size(kept) + ByteLen(last.text) <= MAX_OUTPUT_BYTES then kept + [last] else kept
  }

  lemma SizeSnoc(pieces: seq<Piece>, last: Piece)
    ensures Size(pieces + [last]) == Size(pieces) + ByteLen(last.text)
  {
    assert (pieces + [last])[..|pieces|] == pieces;
  }

  lemma TextsSnoc(pieces: seq<Piece>, last: Piece, stream: Stream)
    ensures TextsOf(pieces + [last], stream) == TextsOf(pieces, stream) + if last.stream == stream then [last.text] else []
  {
    assert (pieces + [last])[..|pieces|] == pieces;
  }

  lemma KeepSnoc(used: nat, pieces: seq<Piece>, last: Piece)
    ensures var kept := Keep(used, pieces);
            Keep(used, pieces + [last])
            == if used + Size(kept) + ByteLen(last.text) <= MAX_OUTPUT_BYTES then kept + [last] else kept
  {
    assert (pieces + [last])[..|pieces|] == pieces;
  }

  // The bytes kept are those of both streams.
  lemma {:induction false} SizeOfBoth(pieces: seq<Piece>)
    ensures Size(pieces) == Total(TextsOf(pieces, Stdout)) + Total(TextsOf(pieces, Stderr))
  {
    if pieces != [] {
      var front, last := pieces[..|pieces|-1], pieces[|pieces|-1];
      SizeOfBoth(front);
      TotalSnoc(TextsOf(front, last.stream), last.text);
      assert TextsOf(front, Stdout) + [] == TextsOf(front, Stdout) && TextsOf(front, Stderr) + [] == TextsOf(front, Stderr);
    }
  }

  // --- A row and the pieces it is given --------------------------------------------

  // The log keeps exactly these pieces of each stream beyond what it kept before.
  ghost predicate KeepsAlso(t: Task, u: Task, pieces: seq<Piece>) {
    u.bytes == t.bytes + Size(pieces)
    && forall s :: Retained(u.log, s) == Retained(t.log, s) + TextsOf(pieces, s)
  }

  lemma OneMoreKept(t: Task, u: Task, kept: seq<Piece>, piece: Piece)
    requires KeepsAlso(t, u, kept)
    ensures KeepsAlso(t, Output(u, piece.stream, piece.text),
                      if u.bytes + ByteLen(piece.text) <= MAX_OUTPUT_BYTES then kept + [piece] else kept)
  {
    hide Retained, Size, TextsOf, ByteLen, Output;
    var v := Output(u, piece.stream, piece.text);
    OutputKeepsOne(u, piece.stream, piece.text);
    SizeSnoc(kept, piece);
    forall s
      ensures Retained(v.log, s)
           == Retained(t.log, s) + TextsOf(if u.bytes + ByteLen(piece.text) <= MAX_OUTPUT_BYTES then kept + [piece] else kept, s)
    {
      TextsSnoc(kept, piece, s);
    }
  }

  lemma OutputKeepsOne(u: Task, stream: Stream, text: Str)
    ensures var v := Output(u, stream, text);
            var fits := u.bytes + ByteLen(text) <= MAX_OUTPUT_BYTES;
            && v.bytes == u.bytes + (if fits then ByteLen(text) else 0)
            && (v.truncated <==> u.truncated || !fits)
            && forall s :: Retained(v.log, s) == Retained(u.log, s) + if fits && s == stream then [text] else []
  {
    var v := Output(u, stream, text);
    if v.log != u.log {
      assert v.log[..|v.log|-1] == u.log;
    }
  }

  lemma {:induction false} FedKeeps(t: Task, pieces: seq<Piece>)
    ensures KeepsAlso(t, Fed(t, pieces), Keep(t.bytes, pieces))
  {
    if pieces == [] {
      assert forall s :: Retained(t.log, s) + [] == Retained(t.log, s);
    } else {
      var front, last := pieces[..|pieces|-1], pieces[|pieces|-1];
      FedKeeps(t, front);
      OneMoreKept(t, Fed(t, front), Keep(t.bytes, front), last);
    }
  }

  // A row that has been given these pieces, and no others, since it was created.
  ghost predicate Recorded(t: Task, pieces: seq<Piece>) {
    && t.bytes == Size(Keep(0, pieces))
    && (forall s :: Retained(t.log, s) == TextsOf(Keep(0, pieces), s))
    && (t.truncated <==> |Keep(0, pieces)| < |pieces|)
  }

  lemma RecordedOne(t: Task, pieces: seq<Piece>, piece: Piece)
    requires Recorded(t, pieces)
    ensures Recorded(Output(t, piece.stream, piece.text), pieces + [piece])
  {
    hide Retained, Size, TextsOf, ByteLen, Output, Keep;
    var u := Output(t, piece.stream, piece.text);
    var kept := Keep(0, pieces);
    OutputKeepsOne(t, piece.stream, piece.text);
    KeepSnoc(0, pieces, piece);
    SizeSnoc(kept, piece);
    forall s
      ensures Retained(u.log, s) == TextsOf(Keep(0, pieces + [piece]), s)
    {
      TextsSnoc(kept, piece, s);
    }
  }

  // --- Dropped and kept pieces --------------------------------------------------------

  // Whether piece `j` fits what the pieces kept before it, of both streams, have left.
  predicate Fits(used: nat, pieces: seq<Piece>, j: nat)
    requires j < |pieces|
  {
    used + Size(Keep(used, pieces[..j])) + ByteLen(pieces[j].text) <= MAX_OUTPUT_BYTES
  }

  // Once a piece of the stream has been dropped, no later one fits when it arrives.
  ghost predicate DroppedForGood(used: nat, pieces: seq<Piece>, stream: Stream) {
    forall i, j | 0 <= i < j < |pieces| && pieces[i].stream == pieces[j].stream == stream && !Fits(used, pieces, i)
      :: !Fits(used, pieces, j)
  }

  ghost predicate FirstDropped(used: nat, pieces: seq<Piece>, stream: Stream, i: nat) {
    && i < |pieces| && pieces[i].stream == stream && !Fits(used, pieces, i)
    && forall k | 0 <= k < i && pieces[k].stream == stream :: Fits(used, pieces, k)
  }

  ghost predicate NoLaterFits(used: nat, pieces: seq<Piece>, stream: Stream, i: nat) {
    forall j | i < j < |pieces| && pieces[j].stream == stream :: !Fits(used, pieces, j)
  }

  lemma FrontFits(used: nat, pieces: seq<Piece>, n: nat)
    requires n <= |pieces|
    ensures forall j | 0 <= j < n :: pieces[..n][j] == pieces[j] && (Fits(used, pieces[..n], j) <==> Fits(used, pieces, j))
  {
    forall j | 0 <= j < n
      ensures Fits(used, pieces[..n], j) <==> Fits(used, pieces, j)
    {
      assert pieces[..n][..j] == pieces[..j];
    }
  }

  lemma {:induction false} AllKept(used: nat, pieces: seq<Piece>, stream: Stream)
    requires forall j | 0 <= j < |pieces| && pieces[j].stream == stream :: Fits(used, pieces, j)
    ensures TextsOf(Keep(used, pieces), stream) == TextsOf(pieces, stream)
  {
    if pieces != [] {
      var n := |pieces| - 1;
      FrontFits(used, pieces, n);
      AllKept(used, pieces[..n], stream);
      KeepLast(used, pieces, stream);
    }
  }

  // What the last piece adds.
  lemma KeepLast(used: nat, pieces: seq<Piece>, stream: Stream)
    requires pieces != []
    ensures var n := |pieces| - 1;
            && TextsOf(Keep(used, pieces), stream)
               == TextsOf(Keep(used, pieces[..n]), stream)
                  + (if Fits(used, pieces, n) && pieces[n].stream == stream then [pieces[n].text] else [])
            && Size(Keep(used, pieces[..n])) <= Size(Keep(used, pieces))
  {
    var n := |pieces| - 1;
    TextsSnoc(Keep(used, pieces[..n]), pieces[n], stream);
    SizeSnoc(Keep(used, pieces[..n]), pieces[n]);
  }

  lemma {:induction false} KeepsNoMore(used: nat, pieces: seq<Piece>, stream: Stream)
    ensures |TextsOf(Keep(used, pieces), stream)| <= |TextsOf(pieces, stream)|
  {
    if pieces != [] {
      KeepsNoMore(used, pieces[..|pieces|-1], stream);
      KeepLast(used, pieces, stream);
    }
  }

  // Bytes in use never become fewer.
  lemma {:induction false} UseGrows(used: nat, pieces: seq<Piece>, i: nat)
    requires i <= |pieces|
    ensures Size(Keep(used, pieces[..i])) <= Size(Keep(used, pieces))
    decreases |pieces|
  {
    if i == |pieces| {
      assert pieces[..i] == pieces;
    } else {
      assert pieces[..|pieces|-1][..i] == pieces[..i];
      UseGrows(used, pieces[..|pieces|-1], i);
      KeepLast(used, pieces, Stdout);
    }
  }

  // A piece that fits after another did not is shorter.
  lemma Shorter(used: nat, pieces: seq<Piece>, i: nat, j: nat)
    requires i < j < |pieces| && !Fits(used, pieces, i) && Fits(used, pieces, j)
    ensures pieces[i].text != pieces[j].text
  {
    UseGrows(used, pieces[..j], i);
    assert pieces[..j][..i] == pieces[..i];
  }

  // After the first piece of the stream that is dropped: nothing more of the stream,
  // until a piece of it fits.
  lemma {:induction false} AfterTheFirst(used: nat, pieces: seq<Piece>, stream: Stream, i: nat)
    requires FirstDropped(used, pieces, stream, i)
    ensures var kept, before := TextsOf(Keep(used, pieces), stream), TextsOf(pieces[..i], stream);
            if NoLaterFits(used, pieces, stream, i) then kept == before
            else |kept| > |before| && kept[|before|] != pieces[i].text
    decreases |pieces|
  {
    var n := |pieces| - 1;
    var front := pieces[..n];
    FrontFits(used, pieces, n);
    KeepLast(used, pieces, stream);
    if i == n {
      AllKept(used, front, stream);
    } else {
      assert front[..i] == pieces[..i];
      NoLaterIn(used, pieces, stream, i);
      hide NoLaterFits, Fits, Keep, TextsOf, Size, ByteLen;
      AfterTheFirst(used, front, stream, i);
      if Fits(used, pieces, n) {
        Shorter(used, pieces, i, n);
      }
    }
  }

  lemma NoLaterIn(used: nat, pieces: seq<Piece>, stream: Stream, i: nat)
    requires FirstDropped(used, pieces, stream, i) && i < |pieces| - 1
    ensures var n := |pieces| - 1;
            && FirstDropped(used, pieces[..n], stream, i)
            && (NoLaterFits(used, pieces, stream, i)
                <==> NoLaterFits(used, pieces[..n], stream, i) && !(pieces[n].stream == stream && Fits(used, pieces, n)))
  {
    hide Fits;
    var n := |pieces| - 1;
    FrontFits(used, pieces, n);
    if NoLaterFits(used, pieces[..n], stream, i) && !(pieces[n].stream == stream && Fits(used, pieces, n)) {
      forall j | i < j < |pieces| && pieces[j].stream == stream
        ensures !Fits(used, pieces, j)
      {
        assert j < n ==> pieces[..n][j] == pieces[j];
      }
    }
  }

  lemma {:induction false} TextsGrow(pieces: seq<Piece>, stream: Stream, n: nat)
    requires n <= |pieces|
    ensures TextsOf(pieces[..n], stream) <= TextsOf(pieces, stream)
    decreases |pieces|
  {
    if n == |pieces| {
      assert pieces[..n] == pieces;
    } else {
      assert pieces[..|pieces|-1][..n] == pieces[..n];
      TextsGrow(pieces[..|pieces|-1], stream, n);
    }
  }

  lemma {:induction false} FirstExists(used: nat, pieces: seq<Piece>, stream: Stream, k: nat) returns (i: nat)
    requires k < |pieces| && pieces[k].stream == stream && !Fits(used, pieces, k)
    ensures FirstDropped(used, pieces, stream, i)
  {
    i := k;
    if j: nat :| j < k && pieces[j].stream == stream && !Fits(used, pieces, j) {
      i := FirstExists(used, pieces, stream, j);
    }
  }

  // What is kept of a stream is a beginning of it if and only if, once one of its
  // pieces has been dropped, no later one is short enough for what both streams have
  // left when it arrives.
  lemma KeptIsPrefixIff(used: nat, pieces: seq<Piece>, stream: Stream)
    ensures TextsOf(Keep(used, pieces), stream) <= TextsOf(pieces, stream) <==> DroppedForGood(used, pieces, stream)
  {
    hide Fits, Keep, TextsOf, Size, ByteLen;
    if k: nat :| k < |pieces| && pieces[k].stream == stream && !Fits(used, pieces, k) {
      var i := FirstExists(used, pieces, stream, k);
      AfterTheFirst(used, pieces, stream, i);
      TextsGrow(pieces, stream, i);
      TextsGrow(pieces, stream, i + 1);
      assert pieces[..i + 1] == pieces[..i] + [pieces[i]];
      TextsSnoc(pieces[..i], pieces[i], stream);
      OnlyAfterTheFirst(used, pieces, stream, i);
    } else {
      AllKept(used, pieces, stream);
    }
  }

  lemma OnlyAfterTheFirst(used: nat, pieces: seq<Piece>, stream: Stream, i: nat)
    requires FirstDropped(used, pieces, stream, i)
    ensures DroppedForGood(used, pieces, stream)
       <==> NoLaterFits(used, pieces, stream, i)
  {
    hide Fits;
  }

  // The same of a task that is given these pieces.
  lemma RetainedIsPrefixIff(t: Task, pieces: seq<Piece>, stream: Stream)
    ensures Retained(Fed(t, pieces).log, stream) <= Retained(t.log, stream) + TextsOf(pieces, stream)
       <==> DroppedForGood(t.bytes, pieces, stream)
  {
    FedKeeps(t, pieces);
    KeptIsPrefixIff(t.bytes, pieces, stream);
    hide Keep, Fed, Retained, TextsOf, DroppedForGood, Size;
    PrefixAfter(Retained(t.log, stream), TextsOf(Keep(t.bytes, pieces), stream), TextsOf(pieces, stream));
  }

  lemma PrefixAfter(a: seq<Str>, b: seq<Str>, c: seq<Str>)
    ensures a + b <= a + c <==> b <= c
  {
    assert b == (a + b)[|a|..] && c == (a + c)[|a|..];
    if b <= c {
      assert a + c == a + b + c[|b|..];
    }
  }

  // --- One stream alone -----------------------------------------------------------------

  function On(stream: Stream, texts: seq<Str>): seq<Piece> {
    seq(|texts|, i requires 0 <= i < |texts| => Piece(stream, texts[i]))
  }

  lemma {:induction false} OnReads(stream: Stream, texts: seq<Str>)
    ensures Size(On(stream, texts)) == Total(texts) && TextsOf(On(stream, texts), stream) == texts
  {
    if texts != [] {
      assert On(stream, texts)[..|texts|-1] == On(stream, texts[..|texts|-1]);
      OnReads(stream, texts[..|texts|-1]);
    }
  }

  // As long as everything fits, everything is kept.
  lemma {:induction false} EverythingKept(used: nat, pieces: seq<Piece>)
    requires used + Size(pieces) <= MAX_OUTPUT_BYTES
    ensures Keep(used, pieces) == pieces
  {
    if pieces != [] {
      EverythingKept(used, pieces[..|pieces|-1]);
    }
  }
}
