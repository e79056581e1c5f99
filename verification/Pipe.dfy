// The output reader of the runner: an incremental UTF-8 decoder, an escape
// sequence filter and a line splitter working over arbitrary read boundaries.
module Pipe {
  import opened Text
  import opened Utf8

  const READ_SIZE: nat := 4096
  const LINE_LIMIT: nat := 8192

  // --- The escape filter ------------------------------------------------------

  // 0: text, 1: after ESC, 2: in a control sequence, 3: in an operating system
  // command, 4: after an ESC inside one.
  function NextEscape(escape: nat, c: Scalar): (next: nat)
    requires escape <= 4
    ensures next <= 4
  {
    match escape
    case 0 => if c == ESC then 1 else 0
    case 1 => if c == OPEN_BRACKET then 2 else if c == CLOSE_BRACKET then 3 else 0
    case 2 => if 0x40 <= c <= 0x7E then 0 else 2
    case 3 => if c == BELL then 0 else if c == ESC then 4 else 3
    case _ => if c == BACKSLASH then 0 else 3
  }

  predicate Printable(c: Scalar) {
    c == NEWLINE || c == TAB || !IsControl(c)
  }

  // The text that passes the filter when it starts in the given state.
  function Visible(escape: nat, cs: Str): (v: Str)
    requires escape <= 4
    decreases |cs|
  {
    if cs == [] then []
    else
      (if escape == 0 && Printable(cs[0]) then [cs[0]] else [])
      + Visible(NextEscape(escape, cs[0]), cs[1..])
  }

  // Character by character: newline, tab, and everything outside the two control blocks
  // and DEL passes, and nothing else does.
  lemma PassesIff(c: Scalar)
    ensures Visible(0, [c]) == if c == 0x0A || c == 0x09 || 0x20 <= c < 0x7F || 0xA0 <= c then [c] else []
  {
    assert [c][1..] == [];
  }

  lemma {:induction false} VisibleIsPrintable(escape: nat, cs: Str)
    requires escape <= 4
    ensures forall c | c in Visible(escape, cs) :: Printable(c)
    decreases |cs|
  {
    if cs != [] {
      VisibleIsPrintable(NextEscape(escape, cs[0]), cs[1..]);
    }
  }

  // The filter leaves text that is already clean alone.
  lemma {:induction false} VisibleKeepsPrintable(cs: Str)
    requires forall c | c in cs :: Printable(c)
    ensures Visible(0, cs) == cs
  {
    if cs != [] {
      assert cs[0] in cs && cs == [cs[0]] + cs[1..];
      VisibleKeepsPrintable(cs[1..]);
    }
  }

  lemma VisibleIdempotent(escape: nat, cs: Str)
    requires escape <= 4
    ensures Visible(0, Visible(escape, cs)) == Visible(escape, cs)
  {
    VisibleIsPrintable(escape, cs);
    VisibleKeepsPrintable(Visible(escape, cs));
  }

  // Terminal output written as a list of its parts: characters, control sequences
  // (section 5.4 of ECMA-48), control strings opened by OSC and closed by BEL or ST
  // (section 5.6), and two-character escape sequences. Inside a control string an ESC
  // takes the next character with it.
  datatype Unit = Plain(c: Scalar) | Escaped(c: Scalar)
  datatype Part =
    | Glyph(c: Scalar)
    | Control(c: Scalar)
    | ControlSequence(parameters: Str, final: Scalar)
    | CommandString(body: seq<Unit>, closedByBell: bool)
    | EscapePair(c: Scalar)

  predicate Shown(c: Scalar) {
    c == 0x0A || c == 0x09 || 0x20 <= c < 0x7F || 0xA0 <= c
  }

  predicate Final(c: Scalar) {
    0x40 <= c <= 0x7E
  }

  predicate InString(u: Unit) {
    match u
    case Plain(c) => c != 0x07 && c != 0x1B
    case Escaped(c) => c != 0x5C
  }

  predicate WellFormedPart(p: Part) {
    match p
    case Glyph(c) => Shown(c)
    case Control(c) => !Shown(c) && c != 0x1B
    case ControlSequence(ps, f) => (forall c | c in ps :: !Final(c)) && Final(f)
    case CommandString(body, _) => forall u | u in body :: InString(u)
    case EscapePair(c) => c != 0x5B && c != 0x5D
  }

  function SpellUnit(u: Unit): Str {
    match u
    case Plain(c) => [c]
    case Escaped(c) => [ESC, c]
  }

  function SpellUnits(us: seq<Unit>): Str {
    if us == [] then [] else SpellUnit(us[0]) + SpellUnits(us[1..])
  }

  function Spell(p: Part): Str {
    match p
    case Glyph(c) => [c]
    case Control(c) => [c]
    case ControlSequence(ps, f) => [ESC, OPEN_BRACKET] + ps + [f]
    case CommandString(body, bell) =>
      [ESC, CLOSE_BRACKET] + SpellUnits(body) + (if bell then [BELL] else [ESC, BACKSLASH])
    case EscapePair(c) => [ESC, c]
  }

  function SpellAll(ps: seq<Part>): Str {
    if ps == [] then [] else Spell(ps[0]) + SpellAll(ps[1..])
  }

  function Glyphs(ps: seq<Part>): Str {
    if ps == [] then [] else (if ps[0].Glyph? then [ps[0].c] else []) + Glyphs(ps[1..])
  }

  // Exactly the glyphs pass: every control sequence, command string, escape pair
  // and control character disappears, and nothing else does.
  lemma {:induction false} FilterKeepsGlyphs(ps: seq<Part>, rest: Str)
    requires forall p | p in ps :: WellFormedPart(p)
    ensures Visible(0, SpellAll(ps) + rest) == Glyphs(ps) + Visible(0, rest)
  {
    if ps == [] {
      assert SpellAll(ps) + rest == rest;
    } else {
      var p, tail := ps[0], SpellAll(ps[1..]) + rest;
      assert p in ps && SpellAll(ps) + rest == Spell(p) + tail;
      FilterKeepsGlyphs(ps[1..], rest);
      PartPasses(p, tail);
    }
  }

  lemma PartPasses(p: Part, tail: Str)
    requires WellFormedPart(p)
    ensures Visible(0, Spell(p) + tail) == (if p.Glyph? then [p.c] else []) + Visible(0, tail)
  {
    match p
    case Glyph(c) => assert ([c] + tail)[1..] == tail;
    case Control(c) => assert ([c] + tail)[1..] == tail;
    case EscapePair(c) =>
      assert [ESC, c] + tail == [ESC] + ([c] + tail);
      SkipIntroducer(c, tail);
    case ControlSequence(qs, f) => SkipControlSequence(qs, f, tail);
    case CommandString(body, bell) => SkipCommandString(body, bell, tail);
  }

  // What may stand at the end: the beginning of a part.
  predicate Unfinished(rest: Str) {
    || |rest| <= 1
    || (rest[1] == 0x5B && forall c | c in rest[2..] :: !Final(c))
    || (rest[1] == 0x5D && OpenString(3, rest[2..]))
  }

  predicate OpenString(escape: nat, s: Str)
    requires escape == 3 || escape == 4
    decreases |s|
  {
    s == [] || (if escape == 4 then s[0] != 0x5C && OpenString(3, s[1..])
                else s[0] != 0x07 && OpenString(if s[0] == 0x1B then 4 else 3, s[1..]))
  }

  lemma {:induction false} NothingShown(escape: nat, s: Str)
    requires escape == 3 || escape == 4
    requires OpenString(escape, s)
    ensures Visible(escape, s) == []
    decreases |s|
  {
    if s != [] {
      NothingShown(if escape == 3 && s[0] == 0x1B then 4 else 3, s[1..]);
    }
  }

  lemma {:induction false} ParametersHidden(s: Str)
    requires forall c | c in s :: !Final(c)
    ensures Visible(2, s) == []
  {
    if s != [] {
      assert s[0] in s && forall c | c in s[1..] :: c in s;
      ParametersHidden(s[1..]);
    }
  }

  lemma UnfinishedHidden(rest: Str)
    requires Unfinished(rest) && (rest != [] ==> rest[0] == 0x1B)
    ensures Visible(0, rest) == []
  {
    if |rest| > 1 {
      assert rest == [ESC] + ([rest[1]] + rest[2..]);
      SkipIntroducer(rest[1], rest[2..]);
      if rest[1] == 0x5B {
        ParametersHidden(rest[2..]);
      } else {
        NothingShown(3, rest[2..]);
      }
    }
  }

  // Every text is a list of parts, perhaps with an unfinished one at the end.
  lemma {:induction false} EveryText(cs: Str) returns (ps: seq<Part>, rest: Str)
    ensures cs == SpellAll(ps) + rest && Unfinished(rest) && (rest != [] ==> rest[0] == 0x1B)
    ensures forall p | p in ps :: WellFormedPart(p)
    decreases |cs|
  {
    hide Unfinished, WellFormedPart, Spell;
    if cs == [] {
      NothingLeft();
      return [], cs;
    }
    var found, first, n := FirstPart(cs);
    if !found {
      return [], cs;
    }
    ps, rest := EveryText(cs[n..]);
    OnePartMore(cs, first, n, ps, rest);
    ps := [first] + ps;
  }

  lemma NothingLeft()
    ensures Unfinished([])
  {
  }

  lemma OnePartMore(cs: Str, first: Part, n: nat, ps: seq<Part>, rest: Str)
    requires n <= |cs| && cs == Spell(first) + cs[n..] && cs[n..] == SpellAll(ps) + rest
    ensures cs == SpellAll([first] + ps) + rest
  {
    assert ([first] + ps)[1..] == ps;
  }

  lemma FirstPart(cs: Str) returns (found: bool, part: Part, n: nat)
    requires cs != []
    ensures found ==> WellFormedPart(part) && 1 <= n <= |cs| && cs == Spell(part) + cs[n..]
    ensures !found ==> cs[0] == 0x1B && Unfinished(cs)
  {
    found, part, n := true, Glyph(cs[0]), 1;
    if cs[0] != 0x1B {
      part := if Shown(cs[0]) then Glyph(cs[0]) else Control(cs[0]);
      assert cs == [cs[0]] + cs[1..];
    } else if |cs| == 1 {
      found := false;
    } else {
      assert cs == [0x1B, cs[1]] + cs[2..];
      if cs[1] == 0x5B {
        found, part, n := Sequence(cs[2..]);
        assert cs[2..][n..] == cs[2 + n..];
        n := n + 2;
      } else if cs[1] == 0x5D {
        found, part, n := Command(cs[2..]);
        assert cs[2..][n..] == cs[2 + n..];
        n := n + 2;
      } else {
        part, n := EscapePair(cs[1]), 2;
      }
    }
  }

  lemma {:induction false} Sequence(s: Str) returns (found: bool, part: Part, n: nat)
    ensures n <= |s|
    ensures found ==> WellFormedPart(part) && [ESC, OPEN_BRACKET] + s == Spell(part) + s[n..]
    ensures !found ==> forall c | c in s :: !Final(c)
  {
    var k := 0;
    while k < |s| && !Final(s[k])
      invariant k <= |s| && forall c | c in s[..k] :: !Final(c)
    {
      k := k + 1;
    }
    part, n := EscapePair(0), 0;
    if k == |s| {
      found := false;
      assert s[..k] == s;
    } else {
      found, part, n := true, ControlSequence(s[..k], s[k]), k + 1;
      assert [ESC, OPEN_BRACKET] + s == [ESC, OPEN_BRACKET] + s[..k] + [s[k]] + s[k + 1..];
    }
  }

  lemma {:induction false} Command(s: Str) returns (found: bool, part: Part, n: nat)
    ensures n <= |s|
    ensures found ==> WellFormedPart(part) && [ESC, CLOSE_BRACKET] + s == Spell(part) + s[n..]
    ensures !found ==> OpenString(3, s)
  {
    var body, bell;
    found, body, bell, n := Units(s);
    part := CommandString(body, bell);
    if found {
      var end: Str := if bell then [BELL] else [ESC, BACKSLASH];
      assert [ESC, CLOSE_BRACKET] + (SpellUnits(body) + end + s[n..]) == [ESC, CLOSE_BRACKET] + SpellUnits(body) + end + s[n..];
    }
  }

  lemma {:induction false} Units(s: Str) returns (found: bool, body: seq<Unit>, bell: bool, n: nat)
    ensures n <= |s|
    ensures found ==>
              && (forall u | u in body :: InString(u))
              && s == SpellUnits(body) + (if bell then [BELL] else [ESC, BACKSLASH]) + s[n..]
    ensures !found ==> OpenString(3, s)
    decreases |s|
  {
    found, body, bell, n := false, [], true, 0;
    if s == [] || s == [0x1B] {
      return;
    }
    if s[0] == 0x07 {
      found, n := true, 1;
      assert s == [] + [BELL] + s[1..];
    } else if s[0] == 0x1B && s[1] == 0x5C {
      found, bell, n := true, false, 2;
      assert s == [] + [ESC, BACKSLASH] + s[2..];
    } else {
      var used, u := if s[0] == 0x1B then 2 else 1, if s[0] == 0x1B then Escaped(s[1]) else Plain(s[0]);
      var m, more;
      found, more, bell, m := Units(s[used..]);
      body, n := [u] + more, used + m;
      if found {
        OneUnitMore(s, used, u, more, if bell then [BELL] else [ESC, BACKSLASH], m);
      }
    }
  }

  lemma OneUnitMore(s: Str, used: nat, u: Unit, more: seq<Unit>, end: Str, m: nat)
    requires used <= |s| && m <= |s| - used && s[..used] == SpellUnits([u])
    requires s[used..] == SpellUnits(more) + end + s[used..][m..]
    ensures s == SpellUnits([u] + more) + end + s[used + m..]
  {
    assert ([u] + more)[1..] == more && [u][1..] == [];
    assert s == s[..used] + s[used..] && s[used..][m..] == s[used + m..];
    assert SpellUnits([u] + more) == s[..used] + SpellUnits(more);
  }

  // Whatever a process writes is made of such parts, and exactly its glyphs are shown.
  lemma GlyphsOfEveryText(cs: Str) returns (ps: seq<Part>, rest: Str)
    ensures cs == SpellAll(ps) + rest && Unfinished(rest) && (rest != [] ==> rest[0] == 0x1B)
    ensures forall p | p in ps :: WellFormedPart(p)
    ensures Visible(0, cs) == Glyphs(ps)
  {
    ps, rest := EveryText(cs);
    FilterKeepsGlyphs(ps, rest);
    UnfinishedHidden(rest);
  }

  lemma SkipOne(escape: nat, c: Scalar, tail: Str)
    requires escape <= 4 && (escape != 0 || !Printable(c))
    ensures Visible(escape, [c] + tail) == Visible(NextEscape(escape, c), tail)
  {
    assert ([c] + tail)[1..] == tail;
  }

  lemma {:induction false} SkipParameters(body: Str, tail: Str)
    requires forall c | c in body :: !Final(c)
    ensures Visible(2, body + tail) == Visible(2, tail)
  {
    if body == [] {
      assert body + tail == tail;
    } else {
      assert body[0] in body && body + tail == [body[0]] + (body[1..] + tail);
      SkipOne(2, body[0], body[1..] + tail);
      assert forall c | c in body[1..] :: c in body;
      SkipParameters(body[1..], tail);
    }
  }

  lemma SkipIntroducer(c: Scalar, rest: Str)
    ensures Visible(0, [ESC] + ([c] + rest)) == Visible(NextEscape(1, c), rest)
  {
    SkipOne(0, ESC, [c] + rest);
    SkipOne(1, c, rest);
  }

  lemma SkipControlSequence(ps: Str, f: Scalar, tail: Str)
    requires WellFormedPart(ControlSequence(ps, f))
    ensures Visible(0, Spell(ControlSequence(ps, f)) + tail) == Visible(0, tail)
  {
    hide Visible;
    var rest := ps + ([f] + tail);
    assert Spell(ControlSequence(ps, f)) + tail == [ESC] + ([OPEN_BRACKET] + rest);
    SkipIntroducer(OPEN_BRACKET, rest);
    SkipParameters(ps, [f] + tail);
    SkipOne(2, f, tail);
  }

  lemma {:induction false} SkipUnits(us: seq<Unit>, tail: Str)
    requires forall u | u in us :: InString(u)
    ensures Visible(3, SpellUnits(us) + tail) == Visible(3, tail)
  {
    hide Visible;
    if us == [] {
      assert SpellUnits(us) + tail == tail;
    } else {
      assert us[0] in us && forall u | u in us[1..] :: u in us;
      SkipUnits(us[1..], tail);
      SkipUnit(us[0], SpellUnits(us[1..]) + tail);
      assert SpellUnits(us) + tail == SpellUnit(us[0]) + (SpellUnits(us[1..]) + tail);
    }
  }

  lemma SkipUnit(u: Unit, rest: Str)
    requires InString(u)
    ensures Visible(3, SpellUnit(u) + rest) == Visible(3, rest)
  {
    hide Visible;
    match u
    case Plain(c) => SkipOne(3, c, rest);
    case Escaped(c) =>
      assert SpellUnit(u) + rest == [ESC] + ([c] + rest);
      SkipOne(3, ESC, [c] + rest);
      SkipOne(4, c, rest);
  }

  lemma SkipCommandString(body: seq<Unit>, bell: bool, tail: Str)
    requires WellFormedPart(CommandString(body, bell))
    ensures Visible(0, Spell(CommandString(body, bell)) + tail) == Visible(0, tail)
  {
    hide Visible, SpellUnits;
    var end: Str := if bell then [BELL] else [ESC, BACKSLASH];
    var rest := SpellUnits(body) + (end + tail);
    assert Spell(CommandString(body, bell)) + tail == [ESC] + ([CLOSE_BRACKET] + rest);
    SkipIntroducer(CLOSE_BRACKET, rest);
    SkipUnits(body, end + tail);
    SkipTerminator(bell, tail);
  }

  lemma SkipTerminator(bell: bool, tail: Str)
    ensures Visible(3, (if bell then [BELL] else [ESC, BACKSLASH]) + tail) == Visible(0, tail)
  {
    if bell {
      SkipOne(3, BELL, tail);
    } else {
      assert [ESC, BACKSLASH] + tail == [ESC] + ([BACKSLASH] + tail);
      SkipOne(3, ESC, [BACKSLASH] + tail);
      SkipOne(4, BACKSLASH, tail);
    }
  }

  // --- The line splitter --------------------------------------------------------

  // A line is sent as soon as it ends in a newline or holds 8192 bytes.
  predicate Full(line: Str) {
    (line != [] && line[|line|-1] == NEWLINE) || ByteLen(line) >= LINE_LIMIT
  }

  // No shorter beginning of the piece was ready to be sent.
  ghost predicate Tight(piece: Str) {
    piece != [] && forall k | 0 < k < |piece| :: !Full(piece[..k])
  }

  // The pieces of a text: nothing lost or added, each sent as early as possible,
  // and only the last one sent because the input ended.
  ghost predicate IsSplit(pieces: seq<Str>, text: Str) {
    && Concat(pieces) == text
    && (forall i | 0 <= i < |pieces| :: Tight(pieces[i]))
    && (forall i | 0 <= i < |pieces| - 1 :: Full(pieces[i]))
  }

  // A text has only one split.
  lemma {:induction false} SplitUnique(p: seq<Str>, q: seq<Str>, text: Str)
    requires IsSplit(p, text) && IsSplit(q, text)
    ensures p == q
    decreases |p|
  {
    SplitEmpty(p, text);
    SplitEmpty(q, text);
    if p != [] {
      FirstPieceNotShorter(p, q, text);
      FirstPieceNotShorter(q, p, text);
      assert p[0] == text[..|p[0]|] && q[0] == text[..|p[0]|];
      SplitTail(p, text);
      SplitTail(q, text);
      SplitUnique(p[1..], q[1..], text[|p[0]|..]);
      assert p == [p[0]] + p[1..] && q == [q[0]] + q[1..];
    }
  }

  lemma SplitEmpty(p: seq<Str>, text: Str)
    requires IsSplit(p, text)
    ensures p == [] <==> text == []
  {
    assert p != [] ==> Tight(p[0]);
  }

  lemma SplitTail(p: seq<Str>, text: Str)
    requires p != [] && IsSplit(p, text)
    ensures |p[0]| <= |text| && IsSplit(p[1..], text[|p[0]|..])
  {
    assert text[|p[0]|..] == Concat(p[1..]);
  }

  lemma FirstPieceNotShorter(p: seq<Str>, q: seq<Str>, text: Str)
    requires p != [] && q != [] && IsSplit(p, text) && IsSplit(q, text)
    ensures |p[0]| >= |q[0]|
  {
    assert p[0] == text[..|p[0]|] && q[0] == text[..|q[0]|];
    assert Tight(p[0]) && Tight(q[0]);
    if |p| == 1 {
      assert p[1..] == [];
      assert Concat(p) == p[0] + [];
    } else {
      assert Full(p[0]);
      BeginningsAgree(p[0], q[0], text);
    }
  }

  lemma BeginningsAgree(a: Str, b: Str, text: Str)
    requires a <= text && b <= text
    ensures |a| < |b| ==> b[..|a|] == a
  {
  }

  // Pieces stay small and hold a newline only at the end.
  lemma SplitBounds(pieces: seq<Str>, text: Str, i: nat)
    requires IsSplit(pieces, text) && i < |pieces|
    ensures 1 <= ByteLen(pieces[i]) <= LINE_LIMIT + 3
    ensures forall k | 0 <= k < |pieces[i]| - 1 :: pieces[i][k] != NEWLINE
    ensures i < |pieces| - 1 ==> pieces[i][|pieces[i]|-1] == 0x0A || ByteLen(pieces[i]) >= 8192
  {
    var p := pieces[i];
    assert Tight(p);
    if |p| > 1 {
      assert !Full(p[..|p|-1]);
    }
    forall k | 0 <= k < |p| - 1 ensures p[k] != NEWLINE {
      assert !Full(p[..k+1]);
    }
  }

  // --- The pipeline as one function of the whole input -----------------------

  datatype Filter = Filter(escape: nat, line: Str)

  ghost predicate ValidFilter(f: Filter) {
    f.escape <= 4 && forall k | 0 < k <= |f.line| :: !Full(f.line[..k])
  }

  function Push(f: Filter, c: Scalar): Filter
    requires f.escape <= 4
  {
    Filter(NextEscape(f.escape, c), if f.escape == 0 && Printable(c) then f.line + [c] else f.line)
  }

  // The pieces sent while `cs` goes through the filter; at the end of the input
  // what is left of the line is sent too.
  function Render(f: Filter, cs: Str, atEnd: bool): seq<Str>
    requires f.escape <= 4
    decreases |cs|
  {
    if cs == [] then
      if atEnd && f.line != [] then [f.line] else []
    else
      var g := Push(f, cs[0]);
      if Full(g.line) then [g.line] + Render(Filter(g.escape, []), cs[1..], atEnd)
      else Render(g, cs[1..], atEnd)
  }

  // Everything the reader sends for a stream.
  function Pieces(bytes: seq<Byte>, atEnd: bool): seq<Str> {
    Render(Filter(0, []), Decode(bytes, atEnd).chars, atEnd)
  }

  // The pieces of a whole stream are the split of its filtered decoding.
  lemma PiecesSplit(bytes: seq<Byte>)
    ensures IsSplit(Pieces(bytes, true), Visible(0, Decode(bytes, true).chars))
  {
    RenderSplits(Filter(0, []), Decode(bytes, true).chars);
    assert [] + Visible(0, Decode(bytes, true).chars) == Visible(0, Decode(bytes, true).chars);
  }

  // Text without control characters comes through whole, only cut into pieces.
  lemma CleanTextPasses(cs: Str)
    requires forall c | c in cs :: Printable(c)
    ensures IsSplit(Pieces(EncodeAll(cs), true), cs) && Concat(Pieces(EncodeAll(cs), true)) == cs
  {
    PiecesSplit(EncodeAll(cs));
    DecodeEncoded(cs, true);
    VisibleKeepsPrintable(cs);
  }

  // The same of text that holds newlines, tabs and characters from the blocks that are
  // not control characters, in whatever bytes it arrives.
  lemma ShownTextPasses(cs: Str)
    requires forall c | c in cs :: c == 0x0A || c == 0x09 || 0x20 <= c < 0x7F || 0xA0 <= c
    ensures Concat(Pieces(EncodeAll(cs), true)) == cs
  {
    CleanTextPasses(cs);
  }

  lemma {:induction false} RenderSplits(f: Filter, cs: Str)
    requires ValidFilter(f)
    ensures IsSplit(Render(f, cs, true), f.line + Visible(f.escape, cs))
    decreases |cs|
  {
    if cs == [] {
      if f.line != [] {
        assert Concat([f.line]) == f.line + Concat([f.line][1..]);
      }
    } else {
      var g := Push(f, cs[0]);
      PushTight(f, cs[0]);
      var v := Visible(g.escape, cs[1..]);
      assert f.line + Visible(f.escape, cs) == g.line + v;
      if Full(g.line) {
        var rest := Render(Filter(g.escape, []), cs[1..], true);
        RenderSplits(Filter(g.escape, []), cs[1..]);
        assert IsSplit(rest, v);
        assert ([g.line] + rest)[1..] == rest;
      } else {
        RenderSplits(g, cs[1..]);
      }
    }
  }

  lemma PushTight(f: Filter, c: Scalar)
    requires ValidFilter(f)
    ensures var g := Push(f, c);
            && g.escape <= 4
            && (g.line != [] ==> Tight(g.line))
            && (!Full(g.line) ==> ValidFilter(g))
            && (Full(g.line) ==> g.line != [])
  {
    var g := Push(f, c);
    forall k | 0 < k <= |f.line| ensures !Full(g.line[..k]) {
      assert g.line[..k] == f.line[..k];
    }
    assert g.line[..|g.line|] == g.line;
    if f.line != [] {
      assert f.line[..|f.line|] == f.line;
    }
  }

  // What was sent before the end is a beginning of what is sent in all.
  lemma {:induction false} RenderPrefix(f: Filter, cs: Str, more: Str, atEnd: bool)
    requires f.escape <= 4
    ensures Render(f, cs, false) <= Render(f, cs + more, atEnd)
    decreases |cs|
  {
    if cs != [] {
      assert (cs + more)[1..] == cs[1..] + more;
      var g := Push(f, cs[0]);
      RenderPrefix(if Full(g.line) then Filter(g.escape, []) else g, cs[1..], more, atEnd);
    }
  }

  lemma PiecesGrow(a: seq<Byte>, b: seq<Byte>, atEnd: bool)
    ensures Pieces(a, false) <= Pieces(a + b, atEnd)
  {
    DecodeSplit(a, b, atEnd);
    RenderPrefix(Filter(0, []), Decode(a, false).chars, Decode(Decode(a, false).rest + b, atEnd).chars, atEnd);
  }

  // --- The streaming reader -----------------------------------------------------

  datatype PipeEnd = Closed | ReadFailed

  // One pass of the inner loop over the pending bytes: its characters and what
  // is decoded after it.
  lemma PassDecodes(pending: seq<Byte>, used: nat, future: seq<Byte>, atEnd: bool, last: bool)
    requires used < |pending| && (last ==> atEnd && future == [])
    ensures var r := ParseUtf8(pending[used..]);
            var invalid := if last && r.errorLen.Unfinished? then |pending| - used - r.validUpTo else InvalidLen(r);
            var cs := r.text + (if invalid > 0 then [REPLACEMENT] else []);
            && used + r.validUpTo + invalid <= |pending|
            && Decode(pending[used..] + future, atEnd).chars
               == cs + Decode(pending[used + r.validUpTo + invalid..] + future, atEnd).chars
            && (r.validUpTo + invalid == 0 ==> !last && FrontOf(pending[used..]).Cut?)
  {
    hide FrontOf, Decode;
    var s := pending[used..];
    var r := ParseUtf8(s);
    ParseDecodes(s, future, atEnd);
    assert s[r.validUpTo + InvalidLen(r)..] == pending[used + r.validUpTo + InvalidLen(r)..];
    if r.errorLen.Unfinished? {
      ParseUnfinished(s);
      if r.validUpTo == 0 {
        assert s[0..] == s;
      }
      if last {
        LastCut(s[r.validUpTo..]);
        assert s[r.validUpTo..] + [] == s[r.validUpTo..];
        assert pending[|pending|..] + [] == [];
        assert Decode([], atEnd).chars == [] by { DecodeNothing(atEnd); }
      }
    }
  }

  lemma LastCut(s: seq<Byte>)
    requires s != [] && FrontOf(s).Cut?
    ensures Decode(s, true).chars == [REPLACEMENT]
  {
  }

  lemma DecodeNothing(atEnd: bool)
    ensures Decode([], atEnd).chars == []
  {
  }

  // What is still to be sent.
  ghost function Ahead(escape: nat, line: Str, bytes: seq<Byte>, closed: bool): seq<Str>
    requires escape <= 4
  {
    Render(Filter(escape, line), Decode(bytes, closed).chars, closed)
  }

  lemma AheadOfCut(escape: nat, line: Str, pending: seq<Byte>)
    requires escape <= 4 && (pending != [] ==> FrontOf(pending).Cut?)
    ensures Ahead(escape, line, pending + [], false) == []
  {
    assert pending + [] == pending;
  }

  lemma AheadAtEnd(escape: nat, line: Str, bytes: seq<Byte>)
    requires escape <= 4 && bytes == []
    ensures Ahead(escape, line, bytes, true) == if line == [] then [] else [line]
  {
  }

  lemma RenderStep(escape: nat, line: Str, c: Scalar, cs: Str, closed: bool)
    requires escape <= 4
    ensures var g := Push(Filter(escape, line), c);
            Render(Filter(escape, line), [c] + cs, closed)
            == if Full(g.line) then [g.line] + Render(Filter(g.escape, []), cs, closed)
               else Render(g, cs, closed)
  {
    assert ([c] + cs)[1..] == cs;
  }

  lemma PiecesAhead(bytes: seq<Byte>, closed: bool)
    ensures Pieces(bytes, closed) == Ahead(0, [], bytes, closed)
  {
  }

  // What reaches a receiver that takes `taken` pieces and is then gone.
  function Received(all: seq<Str>, taken: nat): seq<Str> {
    if |all| <= taken then all else all[..taken]
  }

  // Runs decoded text through the filter and sends every line that is ready.
  // `open` is false when the receiver was gone at a send. `after` is the text
  // that will follow.
  method FilterText(text: Str, escape0: nat, line0: Str, sent0: seq<Str>, taken: nat, ghost after: Str, ghost closed: bool)
    returns (open: bool, escape: nat, line: Str, sent: seq<Str>)
    requires escape0 <= 4 && |sent0| <= taken
    ensures escape <= 4 && |sent| <= taken
    ensures var all := sent0 + Render(Filter(escape0, line0), text + after, closed);
            if open then all == sent + Render(Filter(escape, line), after, closed)
            else taken < |all| && sent == Received(all, taken)
  {
    hide Render, Full, NextEscape, Printable, ByteLen;
    open, escape, line, sent := true, escape0, line0, sent0;
    ghost var all := sent0 + Render(Filter(escape0, line0), text + after, closed);
    var i := 0;
    assert text[0..] == text;
    while i < |text|
      invariant 0 <= i <= |text| && escape <= 4 && |sent| <= taken && open
      invariant all == sent + Render(Filter(escape, line), text[i..] + after, closed)
    {
      var ch := text[i];
      RenderStep(escape, line, ch, text[i + 1..] + after, closed);
      assert text[i..] + after == [ch] + (text[i + 1..] + after);
      if escape == 0 && Printable(ch) {
        line := line + [ch];
      }
      escape := NextEscape(escape, ch);
      if Full(line) {
        if |sent| == taken {
          open := false;
          return;
        }
        sent := sent + [line];
        line := [];
      }
      i := i + 1;
    }
    assert text[i..] + after == after;
  }

  // Decodes the pending bytes and sends what they complete. `last` says that the
  // read returned nothing. `used` is how many bytes were decoded; `future` are
  // the bytes still to be read.
  method DecodePending(pending: seq<Byte>, last: bool, escape0: nat, line0: Str, sent0: seq<Str>, taken: nat,
                       ghost future: seq<Byte>, ghost closed: bool)
    returns (open: bool, used: nat, escape: nat, line: Str, sent: seq<Str>)
    requires escape0 <= 4 && |sent0| <= taken && (last ==> closed && future == [])
    ensures escape <= 4 && |sent| <= taken && used <= |pending|
    ensures var all := sent0 + Ahead(escape0, line0, pending + future, closed);
            if open then all == sent + Ahead(escape, line, pending[used..] + future, closed)
            else taken < |all| && sent == Received(all, taken)
    ensures open ==> used == |pending| || (!last && FrontOf(pending[used..]).Cut?)
  {
    hide FrontOf, Decode, ParseUtf8, Render;
    open, used, escape, line, sent := true, 0, escape0, line0, sent0;
    ghost var all := sent0 + Ahead(escape0, line0, pending + future, closed);
    assert pending[0..] == pending;
    while used < |pending|
      invariant used <= |pending| && escape <= 4 && |sent| <= taken && open
      invariant all == sent + Ahead(escape, line, pending[used..] + future, closed)
    {
      var parsed := ParseUtf8(pending[used..]);
      var valid := parsed.validUpTo;
      var invalid := match parsed.errorLen
        case NoError => 0
        case Invalid(n) => n
        case Unfinished => if last then |pending| - used - valid else 0;
      var text := parsed.text + (if invalid > 0 then [REPLACEMENT] else []);
      PassDecodes(pending, used, future, closed, last);
      ghost var after := Decode(pending[used + valid + invalid..] + future, closed).chars;
      open, escape, line, sent := FilterText(text, escape, line, sent, taken, after, closed);
      if !open {
        return;
      }
      used := used + valid + invalid;
      if valid + invalid == 0 {
        break;
      }
    }
  }

  // Reads a pipe to its end. `chunks` are the results of the read calls, however
  // the stream was cut; the receiver takes `taken` pieces and is then gone.
  method ReadPipe(chunks: seq<seq<Byte>>, end: PipeEnd, taken: nat) returns (ok: bool, sent: seq<Str>)
    requires forall r | r in chunks :: 0 < |r| <= READ_SIZE
    ensures var all := Pieces(Concat(chunks), end.Closed?);
            && sent == Received(all, taken)
            && (ok <==> end.Closed? || |all| > taken)
    // text without control characters arrives as it was written, if the receiver stays
    ensures forall cs: Str | EncodeAll(cs) == Concat(chunks) && end.Closed? && |Pieces(Concat(chunks), true)| <= taken
                             && (forall c | c in cs :: c == 0x0A || c == 0x09 || 0x20 <= c < 0x7F || 0xA0 <= c)
              :: Concat(sent) == cs
  {
    hide FrontOf, Decode, Pieces, Ahead, Printable;
    forall cs: Str | EncodeAll(cs) == Concat(chunks) && (forall c | c in cs :: c == 0x0A || c == 0x09 || 0x20 <= c < 0x7F || 0xA0 <= c)
      ensures Concat(Pieces(Concat(chunks), true)) == cs
    {
      ShownTextPasses(cs);
    }
    var pending: seq<Byte> := [];
    var line: Str := [];
    var escape := 0;
    sent := [];
    var k := 0;
    var closed := end.Closed?;
    ghost var all := Pieces(Concat(chunks), closed);
    PiecesAhead(Concat(chunks), closed);
    assert [] + Concat(chunks[0..]) == Concat(chunks);
    while true
      invariant 0 <= k <= |chunks| && 0 <= escape <= 4 && |sent| <= taken
      invariant |pending| <= 3 && (pending != [] ==> FrontOf(pending).Cut?)
      invariant all == sent + Ahead(escape, line, pending + Concat(chunks[k..]), closed)
      decreases |chunks| - k
    {
      var input: seq<Byte> := [];
      if k < |chunks| {
        input := chunks[k];
      } else if end.ReadFailed? {
        AheadOfCut(escape, line, pending);
        return false, sent;
      }
      var count := |input|;
      ghost var future := Concat(chunks[if count == 0 then k else k + 1..]);
      assert pending + Concat(chunks[k..]) == pending + input + future;
      pending := pending + input;
      var open, used;
      open, used, escape, line, sent := DecodePending(pending, count == 0, escape, line, sent, taken, future, closed);
      if !open {
        return true, sent;
      }
      pending := pending[used..];
      if count == 0 {
        AheadAtEnd(escape, line, pending + future);
        if line != [] {
          if |sent| < taken {
            sent := sent + [line];
          }
        }
        return true, sent;
      }
      k := k + 1;
    }
  }
}
