// Events as they travel: the JSON text of a page and how many bytes it takes.
module Wire {
  import opened Text
  import opened Tasks
  import opened Range

  const MAX_RESPONSE: nat := 2 * 1024 * 1024

  const QUOTE: Scalar := 0x22
  const BACKSPACE: Scalar := 0x08
  const FORM_FEED: Scalar := 0x0C

  // Bytes of a character inside a JSON string.
  function EscapedWidth(c: Scalar): (n: nat)
    ensures 1 <= n <= 6
  {
    if c == QUOTE || c == BACKSLASH then 2
    else if c == BACKSPACE || c == TAB || c == NEWLINE || c == FORM_FEED || c == CARRIAGE_RETURN then 2
    else if c < 0x20 then 6
    else Width(c)
  }

  function EscapedLen(s: Str): nat {
    if s == [] then 0 else EscapedLen(s[..|s|-1]) + EscapedWidth(s[|s|-1])
  }

  function StateName(state: RemoteState): string {
    match state
    case Queued => "queued"
    case Starting => "starting"
    case Running => "running"
    case Cancelling => "cancelling"
    case Succeeded => "succeeded"
    case Failed => "failed"
    case Cancelled => "cancelled"
    case TimedOut => "timed_out"
    case RecoveryRequired => "recovery_required"
  }

  function Kind(body: EventBody): string {
    match body
    case Moved(to, _) => StateName(to)
    case Printed(Stdout, _) => "stdout"
    case Printed(Stderr, _) => "stderr"
    case OutputTruncated => "output_truncated"
    case Results(_, _) => "results"
  }

  // The field names, punctuation, a task id of 36 characters and a time of 24.
  const FRAME: nat := 118

  function EventBytes(e: Event): (n: nat)
    ensures n >= FRAME + EscapedLen(TextOf(e.body))
  {
    FRAME + |Print(e.number)| + |Kind(e.body)| + EscapedLen(TextOf(e.body))
  }

  // An array: brackets, and a comma between any two events.
  function PageBytes(page: seq<Event>): nat {
    if page == [] then 2
    else if |page| == 1 then 2 + EventBytes(page[0])
    else PageBytes(page[..|page|-1]) + 1 + EventBytes(page[|page|-1])
  }

  lemma {:induction false} LongerPage(page: seq<Event>, more: seq<Event>)
    ensures PageBytes(page) <= PageBytes(page + more)
  {
    if more == [] {
      assert page + [] == page;
    } else {
      var head := page + more[..|more|-1];
      assert (page + more)[..|page + more|-1] == head;
      LongerPage(page, more[..|more|-1]);
    }
  }

  // The text of an event is not longer than what it takes in JSON.
  lemma {:induction false} EscapedLonger(s: Str)
    ensures ByteLen(s) <= EscapedLen(s)
  {
    if s != [] {
      EscapedLonger(s[..|s|-1]);
    }
  }

  // --- The text itself --------------------------------------------------------------

  function HexDigit(n: nat): Scalar
    requires n < 16
  {
    if n < 10 then 0x30 + n else 0x61 + (n - 10)
  }

  // A character inside a JSON string (section 7 of RFC 8259), with the short escapes.
  function Escape(c: Scalar): Str {
    if c == 0x22 then Scalars("\\\"")
    else if c == 0x5C then Scalars("\\\\")
    else if c == 0x08 then Scalars("\\b")
    else if c == 0x09 then Scalars("\\t")
    else if c == 0x0A then Scalars("\\n")
    else if c == 0x0C then Scalars("\\f")
    else if c == 0x0D then Scalars("\\r")
    else if c < 0x20 then Scalars("\\u00") + [HexDigit(c / 16), HexDigit(c % 16)]
    else [c]
  }

  function EscapeAll(s: Str): Str {
    if s == [] then [] else EscapeAll(s[..|s|-1]) + Escape(s[|s|-1])
  }

  function EventHead(e: Event, task: Str): Str {
    Scalars("{\"seq\":") + Scalars(Print(e.number)) + Scalars(",\"task_id\":\"") + task
    + Scalars("\",\"kind\":\"") + Scalars(Kind(e.body))
  }

  function EventTail(e: Event, at: Str): Str {
    Scalars("\",\"text\":\"") + EscapeAll(TextOf(e.body)) + Scalars("\",\"occurred_at\":\"") + at + Scalars("\"}")
  }

  function EventText(e: Event, task: Str, at: Str): Str {
    EventHead(e, task) + EventTail(e, at)
  }

  // `times` are the moments of the events.
  function EventTexts(page: seq<Event>, task: Str, times: seq<Str>): Str
    requires |times| == |page|
  {
    if page == [] then []
    else if |page| == 1 then EventText(page[0], task, times[0])
    else
      var n := |page| - 1;
      EventTexts(page[..n], task, times[..n]) + Scalars(",") + EventText(page[n], task, times[n])
  }

  function PageText(page: seq<Event>, task: Str, times: seq<Str>): Str
    requires |times| == |page|
  {
    Scalars("[") + EventTexts(page, task, times) + Scalars("]")
  }

  lemma {:induction false} BytesAdd(a: Str, b: Str)
    ensures ByteLen(a + b) == ByteLen(a) + ByteLen(b)
  {
    if b == [] {
      assert a + b == a;
    } else {
      assert (a + b)[..|a + b| - 1] == a + b[..|b|-1];
      BytesAdd(a, b[..|b|-1]);
    }
  }

  lemma {:induction false} AsciiBytes(s: Str)
    requires forall c | c in s :: c < 0x80
    ensures ByteLen(s) == |s|
  {
    if s != [] {
      assert s[|s|-1] in s;
      var front := s[..|s|-1];
      forall c | c in front
        ensures c < 0x80
      {
        assert c in s;
      }
      AsciiBytes(front);
    }
  }

  lemma EscapeBytes(c: Scalar)
    ensures ByteLen(Escape(c)) == EscapedWidth(c)
  {
    if |Escape(c)| == 1 {
      assert Escape(c)[..0] == [];
    } else {
      AsciiBytes(Escape(c));
    }
  }

  lemma {:induction false} EscapeAllBytes(s: Str)
    ensures ByteLen(EscapeAll(s)) == EscapedLen(s)
  {
    if s != [] {
      EscapeAllBytes(s[..|s|-1]);
      EscapeBytes(s[|s|-1]);
      BytesAdd(EscapeAll(s[..|s|-1]), Escape(s[|s|-1]));
    }
  }

  lemma PlainBytes(s: string)
    requires forall c | c in s :: c as int < 0x80
    ensures ByteLen(Scalars(s)) == |s|
  {
    forall k | 0 <= k < |s|
      ensures Scalars(s)[k] < 0x80
    {
      assert s[k] in s;
    }
    AsciiBytes(Scalars(s));
  }

  lemma FrameBytes()
    ensures ByteLen(Scalars("{\"seq\":")) == 7 && ByteLen(Scalars(",\"task_id\":\"")) == 12
    ensures ByteLen(Scalars("\",\"kind\":\"")) == 10 && ByteLen(Scalars("\",\"text\":\"")) == 10
    ensures ByteLen(Scalars("\",\"occurred_at\":\"")) == 17 && ByteLen(Scalars("\"}")) == 2
    ensures ByteLen(Scalars("[")) == 1 && ByteLen(Scalars("]")) == 1 && ByteLen(Scalars(",")) == 1
  {
    hide ByteLen, Scalars;
    PlainBytes("{\"seq\":");
    PlainBytes(",\"task_id\":\"");
    PlainBytes("\",\"kind\":\"");
    PlainBytes("\",\"text\":\"");
    PlainBytes("\",\"occurred_at\":\"");
    PlainBytes("\"}");
    PlainBytes("[");
    PlainBytes("]");
    PlainBytes(",");
  }

  lemma PrintBytes(n: nat)
    ensures ByteLen(Scalars(Print(n))) == |Print(n)|
  {
    forall c | c in Print(n)
      ensures c as int < 0x80
    {
      assert IsDigit(c);
    }
    PlainBytes(Print(n));
  }

  lemma BytesAddThree(a: Str, b: Str, c: Str)
    ensures ByteLen(a + b + c) == ByteLen(a) + ByteLen(b) + ByteLen(c)
  {
    BytesAdd(a, b);
    BytesAdd(a + b, c);
  }

  lemma KindBytes(body: EventBody)
    ensures ByteLen(Scalars(Kind(body))) == |Kind(body)|
  {
    PlainBytes(Kind(body));
  }

  lemma EventHeadBytes(e: Event, task: Str)
    ensures ByteLen(EventHead(e, task)) == 29 + |Print(e.number)| + ByteLen(task) + |Kind(e.body)|
  {
    hide ByteLen, Scalars, Print, Kind;
    FrameBytes();
    PrintBytes(e.number);
    KindBytes(e.body);
    var a := Scalars("{\"seq\":") + Scalars(Print(e.number)) + Scalars(",\"task_id\":\"");
    BytesAddThree(Scalars("{\"seq\":"), Scalars(Print(e.number)), Scalars(",\"task_id\":\""));
    BytesAddThree(a, task, Scalars("\",\"kind\":\""));
    BytesAdd(a + task + Scalars("\",\"kind\":\""), Scalars(Kind(e.body)));
  }

  lemma EventTailBytes(e: Event, at: Str)
    ensures ByteLen(EventTail(e, at)) == 29 + EscapedLen(TextOf(e.body)) + ByteLen(at)
  {
    FrameBytes();
    EscapeAllBytes(TextOf(e.body));
    hide ByteLen, Scalars, EscapeAll, EscapedLen, TextOf;
    var a := Scalars("\",\"text\":\"") + EscapeAll(TextOf(e.body));
    var b := a + Scalars("\",\"occurred_at\":\"");
    BytesAdd(Scalars("\",\"text\":\""), EscapeAll(TextOf(e.body)));
    BytesAdd(a, Scalars("\",\"occurred_at\":\""));
    BytesAdd(b, at);
    BytesAdd(b + at, Scalars("\"}"));
  }

  lemma EventTextBytes(e: Event, task: Str, at: Str)
    requires ByteLen(task) == 36 && ByteLen(at) == 24
    ensures ByteLen(EventText(e, task, at)) == EventBytes(e)
  {
    EventHeadBytes(e, task);
    EventTailBytes(e, at);
    hide ByteLen, EventHead, EventTail, Print, Kind, EscapedLen;
    BytesAdd(EventHead(e, task), EventTail(e, at));
  }

  lemma PageBytesSnoc(page: seq<Event>)
    requires |page| > 1
    ensures PageBytes(page) == PageBytes(page[..|page|-1]) + 1 + EventBytes(page[|page|-1])
  {
    hide EventBytes;
  }

  lemma {:induction false} EventTextsBytes(page: seq<Event>, task: Str, times: seq<Str>)
    requires |times| == |page| && ByteLen(task) == 36 && forall t | t in times :: ByteLen(t) == 24
    ensures ByteLen(EventTexts(page, task, times)) + 2 == PageBytes(page)
  {
    if page != [] {
      hide EventText, Scalars, EventBytes;
      var n := |page| - 1;
      EventTextBytes(page[n], task, times[n]);
      hide ByteLen, EventText, Scalars, EventBytes;
      if n > 0 {
        FrameBytes();
        EventTextsBytes(page[..n], task, times[..n]);
        hide PageBytes;
        PageBytesSnoc(page);
        var front := EventTexts(page[..n], task, times[..n]);
        BytesAdd(front, Scalars(","));
        BytesAdd(front + Scalars(","), EventText(page[n], task, times[n]));
      }
    }
  }

  // The size of a page is the length of its JSON text in bytes, with an id of 36 bytes
  // and times of 24, which need no escapes.
  lemma PageBytesAreOfText(page: seq<Event>, task: Str, times: seq<Str>)
    requires |times| == |page| && ByteLen(task) == 36 && forall t | t in times :: ByteLen(t) == 24
    ensures ByteLen(PageText(page, task, times)) == PageBytes(page)
  {
    FrameBytes();
    EventTextsBytes(page, task, times);
    hide ByteLen, EventTexts, PageBytes, Scalars;
    BytesAdd(Scalars("["), EventTexts(page, task, times));
    BytesAdd(Scalars("[") + EventTexts(page, task, times), Scalars("]"));
  }
}
