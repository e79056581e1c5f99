// UTF-8 as section 4 of RFC 3629 defines it, the decoder step that
// `std::str::from_utf8` takes, and the two agreeing.
module Utf8 {
  import opened Text

  // --- The encoding, section 3 of RFC 3629 ---------------------------------

  function Encode(c: Scalar): (s: seq<Byte>)
    ensures |s| == Width(c)
  {
    var d, e, f := c / 0x40, c / 0x40 / 0x40, c / 0x40 / 0x40 / 0x40;
    if c < 0x80 then [c]
    else if c < 0x800 then [0xC0 + d, 0x80 + c % 0x40]
    else if c < 0x10000 then [0xE0 + e, 0x80 + d % 0x40, 0x80 + c % 0x40]
    else [0xF0 + f, 0x80 + e % 0x40, 0x80 + d % 0x40, 0x80 + c % 0x40]
  }

  function EncodeAll(cs: Str): seq<Byte> {
    if cs == [] then [] else Encode(cs[0]) + EncodeAll(cs[1..])
  }

  // `String::len` counts the bytes of the encoding.
  lemma {:induction false} ByteLenIsEncoded(cs: Str)
    ensures ByteLen(cs) == |EncodeAll(cs)|
  {
    if cs != [] {
      var n := |cs| - 1;
      ByteLenIsEncoded(cs[..n]);
      EncodeAllSnoc(cs[..n], cs[n]);
      assert cs == cs[..n] + [cs[n]];
    }
  }

  lemma {:induction false} EncodeAllSnoc(cs: Str, c: Scalar)
    ensures EncodeAll(cs + [c]) == EncodeAll(cs) + Encode(c)
  {
    if cs == [] {
      assert cs + [c] == [c] && [c][1..] == [];
    } else {
      assert (cs + [c])[1..] == cs[1..] + [c];
      EncodeAllSnoc(cs[1..], c);
    }
  }

  // `p` is a proper, nonempty beginning of some encoded scalar value.
  ghost predicate Viable(p: seq<Byte>) {
    p != [] && exists c: Scalar :: p < Encode(c)
  }

  // --- One step of the decoder ---------------------------------------------

  // What stands at the front of the input: a whole scalar value, an ill-formed
  // part of the given length, or an unfinished sequence that more input could
  // still complete.
  datatype Front = Whole(c: Scalar, len: nat) | Broken(len: nat) | Cut

  predicate Cont(b: Byte) {
    0x80 <= b < 0xC0
  }

  // The second bytes allowed after each three- or four-byte lead.
  predicate SecondOk(lead: Byte, b: Byte) {
    if lead == 0xE0 then 0xA0 <= b < 0xC0
    else if lead == 0xED then 0x80 <= b < 0xA0
    else if lead == 0xF0 then 0x90 <= b < 0xC0
    else if lead == 0xF4 then 0x80 <= b < 0x90
    else Cont(b)
  }

  function Pack2(a: Byte, b: Byte): (c: Scalar)
    requires 0xC2 <= a < 0xE0 && Cont(b)
    ensures 0x80 <= c < 0x800
  {
    var a': int, b': int := a, b;
    (a' - 0xC0) * 0x40 + (b' - 0x80)
  }

  function Pack3(a: Byte, b: Byte, d: Byte): (c: Scalar)
    requires 0xE0 <= a < 0xF0 && SecondOk(a, b) && Cont(d)
    ensures 0x800 <= c < 0x10000
  {
    var a': int, b': int, d': int := a, b, d;
    ((a' - 0xE0) * 0x40 + (b' - 0x80)) * 0x40 + (d' - 0x80)
  }

  function Pack4(a: Byte, b: Byte, d: Byte, e: Byte): (c: Scalar)
    requires 0xF0 <= a < 0xF5 && SecondOk(a, b) && Cont(d) && Cont(e)
    ensures 0x10000 <= c
  {
    var a': int, b': int, d': int, e': int := a, b, d, e;
    (((a' - 0xF0) * 0x40 + (b' - 0x80)) * 0x40 + (d' - 0x80)) * 0x40 + (e' - 0x80)
  }

  function FrontOf(s: seq<Byte>): (f: Front)
    requires s != []
    ensures f.Whole? ==> 1 <= f.len <= |s| && f.len == Width(f.c)
    ensures f.Broken? ==> 1 <= f.len <= |s| && f.len <= 3
    ensures f.Cut? ==> |s| <= 3
  {
    var a := s[0];
    if a < 0x80 then Whole(a, 1)
    else if 0xC2 <= a < 0xE0 then
      if |s| < 2 then Cut
      else if !Cont(s[1]) then Broken(1)
      else Whole(Pack2(a, s[1]), 2)
    else if 0xE0 <= a < 0xF0 then
      if |s| < 2 then Cut
      else if !SecondOk(a, s[1]) then Broken(1)
      else if |s| < 3 then Cut
      else if !Cont(s[2]) then Broken(2)
      else Whole(Pack3(a, s[1], s[2]), 3)
    else if 0xF0 <= a < 0xF5 then
      if |s| < 2 then Cut
      else if !SecondOk(a, s[1]) then Broken(1)
      else if |s| < 3 then Cut
      else if !Cont(s[2]) then Broken(2)
      else if |s| < 4 then Cut
      else if !Cont(s[3]) then Broken(3)
      else Whole(Pack4(a, s[1], s[2], s[3]), 4)
    else Broken(1)
  }

  // A decided front does not change when more bytes arrive.
  lemma FrontStable(s: seq<Byte>, more: seq<Byte>)
    requires s != [] && !FrontOf(s).Cut?
    ensures FrontOf(s + more) == FrontOf(s)
  {
    assert forall i | 0 <= i < |s| :: (s + more)[i] == s[i];
  }

  lemma Repack2(c: Scalar)
    requires 0x80 <= c < 0x800
    ensures FrontOf(Encode(c)) == Whole(c, 2)
  {
  }

  lemma Repack3(c: Scalar)
    requires 0x800 <= c < 0x10000
    ensures FrontOf(Encode(c)) == Whole(c, 3)
  {
    var d, e := c / 0x40, c / 0x40 / 0x40;
    assert SecondOk(0xE0 + e, 0x80 + d % 0x40);
  }

  lemma Repack4(c: Scalar)
    requires 0x10000 <= c
    ensures FrontOf(Encode(c)) == Whole(c, 4)
  {
    var d, e, f := c / 0x40, c / 0x40 / 0x40, c / 0x40 / 0x40 / 0x40;
    assert SecondOk(0xF0 + f, 0x80 + e % 0x40);
  }

  lemma FrontOfEncode(c: Scalar, more: seq<Byte>)
    ensures FrontOf(Encode(c) + more) == Whole(c, Width(c))
  {
    if 0x80 <= c < 0x800 {
      Repack2(c);
    } else if 0x800 <= c < 0x10000 {
      Repack3(c);
    } else if 0x10000 <= c {
      Repack4(c);
    }
    FrontStable(Encode(c), more);
  }

  lemma Unpack2(a: Byte, b: Byte)
    requires 0xC2 <= a < 0xE0 && Cont(b)
    ensures Encode(Pack2(a, b)) == [a, b]
  {
  }

  lemma DropDigit(q: int, r: int)
    requires 0 <= r < 0x40
    ensures (q * 0x40 + r) / 0x40 == q && (q * 0x40 + r) % 0x40 == r
  {
  }

  lemma Unpack3(a: Byte, b: Byte, d: Byte)
    requires 0xE0 <= a < 0xF0 && SecondOk(a, b) && Cont(d)
    ensures Encode(Pack3(a, b, d)) == [a, b, d]
  {
    var a': int, b': int, d': int := a - 0xE0, b - 0x80, d - 0x80;
    DropDigit(a' * 0x40 + b', d');
    DropDigit(a', b');
  }

  lemma Unpack4(a: Byte, b: Byte, d: Byte, e: Byte)
    requires 0xF0 <= a < 0xF5 && SecondOk(a, b) && Cont(d) && Cont(e)
    ensures Encode(Pack4(a, b, d, e)) == [a, b, d, e]
  {
    var a': int, b': int, d': int, e': int := a - 0xF0, b - 0x80, d - 0x80, e - 0x80;
    DropDigit((a' * 0x40 + b') * 0x40 + d', e');
    DropDigit(a' * 0x40 + b', d');
    DropDigit(a', b');
  }

  // A whole front is the encoding of the value it stands for.
  lemma FrontEncodes(s: seq<Byte>)
    requires s != [] && FrontOf(s).Whole?
    ensures Encode(FrontOf(s).c) == s[..FrontOf(s).len]
  {
    hide Encode, Pack2, Pack3, Pack4;
    match FrontOf(s).len
    case 1 => EncodeAscii(s[0]);
    case 2 => Unpack2(s[0], s[1]);
    case 3 => Unpack3(s[0], s[1], s[2]);
    case _ => Unpack4(s[0], s[1], s[2], s[3]);
  }

  lemma EncodeAscii(a: Byte)
    requires a < 0x80
    ensures Encode(a) == [a]
  {
  }

  // The decoder accepts exactly the encodings of scalar values.
  lemma WholeIffEncoded(s: seq<Byte>, c: Scalar)
    requires s != []
    ensures FrontOf(s) == Whole(c, Width(c)) <==> Encode(c) <= s
  {
    hide FrontOf, Encode;
    if Encode(c) <= s {
      assert s == Encode(c) + s[Width(c)..];
      FrontOfEncode(c, s[Width(c)..]);
    }
    if FrontOf(s) == Whole(c, Width(c)) {
      FrontEncodes(s);
    }
  }

  // A scalar value whose encoding extends an unfinished sequence.
  function Completion(s: seq<Byte>): (c: Scalar)
    requires s != [] && FrontOf(s).Cut?
  {
    var a := s[0];
    if a < 0xE0 then Pack2(a, 0x80)
    else if a < 0xF0 then
      var b := if |s| > 1 then s[1] else if a == 0xE0 then 0xA0 else 0x80;
      Pack3(a, b, 0x80)
    else
      var b := if |s| > 1 then s[1] else if a == 0xF0 then 0x90 else 0x80;
      var d := if |s| > 2 then s[2] else 0x80;
      Pack4(a, b, d, 0x80)
  }

  lemma CompletionExtends(s: seq<Byte>)
    requires s != [] && FrontOf(s).Cut?
    ensures s < Encode(Completion(s))
  {
    hide Encode, Pack2, Pack3, Pack4;
    var a := s[0];
    if a < 0xE0 {
      Unpack2(a, 0x80);
    } else if a < 0xF0 {
      Unpack3(a, if |s| > 1 then s[1] else if a == 0xE0 then 0xA0 else 0x80, 0x80);
    } else {
      Unpack4(a, if |s| > 1 then s[1] else if a == 0xF0 then 0x90 else 0x80, if |s| > 2 then s[2] else 0x80, 0x80);
    }
  }

  // The decoder waits for more input exactly when more input could help.
  lemma CutIffViable(s: seq<Byte>)
    requires s != []
    ensures FrontOf(s).Cut? <==> Viable(s)
  {
    hide FrontOf, Encode;
    if FrontOf(s).Cut? {
      CompletionExtends(s);
    }
    if Viable(s) {
      var c: Scalar :| s < Encode(c);
      assert Encode(c) == s + Encode(c)[|s|..];
      FrontOfEncode(c, []);
      assert Encode(c) + [] == Encode(c);
      if !FrontOf(s).Cut? {
        FrontStable(s, Encode(c)[|s|..]);
      }
    }
  }

  // Section 3.9 of the Unicode Standard: an ill-formed part is the longest
  // viable beginning of the input, or one byte when there is none.
  lemma BrokenIsMaximalSubpart(s: seq<Byte>, n: nat)
    requires s != []
    ensures FrontOf(s) == Broken(n) <==>
            && 1 <= n <= |s|
            && (n == 1 || Viable(s[..n]))
            && (n < |s| ==> !Viable(s[..n+1]))
            && !Viable(s)
            && !(exists c: Scalar :: Encode(c) <= s)
  {
    CutIffViable(s);
    if exists c: Scalar :: Encode(c) <= s {
      var c: Scalar :| Encode(c) <= s;
      WholeIffEncoded(s, c);
    } else if !Viable(s) {
      if FrontOf(s).Whole? {
        WholeIffEncoded(s, FrontOf(s).c);
        assert false;
      }
      var m := FrontOf(s).len;
      PrefixFronts(s, m);
      if 1 <= n <= |s| && n != m {
        ViablePrefix(s, m, n);
      }
    }
  }

  lemma PrefixFronts(s: seq<Byte>, m: nat)
    requires s != [] && FrontOf(s) == Broken(m)
    ensures m == 1 || Viable(s[..m])
    ensures m < |s| ==> !Viable(s[..m+1])
  {
    if m > 1 {
      CutIffViable(s[..m]);
    }
    if m < |s| {
      CutIffViable(s[..m+1]);
    }
  }

  lemma ViablePrefix(s: seq<Byte>, m: nat, n: nat)
    requires s != [] && FrontOf(s) == Broken(m) && 1 <= n <= |s| && n != m
    ensures !((n == 1 || Viable(s[..n])) && (n < |s| ==> !Viable(s[..n+1])))
  {
    if n < m {
      CutIffViable(s[..n+1]);
    } else {
      CutIffViable(s[..n]);
    }
  }

  // --- Decoding a stream ----------------------------------------------------

  datatype Decoded = Decoded(chars: Str, rest: seq<Byte>)

  // Decodes `s` with one replacement character for every ill-formed part. An
  // unfinished sequence at the end is kept as `rest`, or replaced when no more
  // input can come.
  function Decode(s: seq<Byte>, atEnd: bool): (d: Decoded)
    ensures |d.rest| <= 3
    ensures atEnd ==> d.rest == []
    decreases |s|
  {
    if s == [] then Decoded([], [])
    else match FrontOf(s)
      case Cut => if atEnd then Decoded([REPLACEMENT], []) else Decoded([], s)
      case Whole(c, n) => var d := Decode(s[n..], atEnd); Decoded([c] + d.chars, d.rest)
      case Broken(n) => var d := Decode(s[n..], atEnd); Decoded([REPLACEMENT] + d.chars, d.rest)
  }

  // One decided front, with whatever follows.
  lemma DecodeFront(s: seq<Byte>, more: seq<Byte>, atEnd: bool)
    requires s != [] && !FrontOf(s).Cut?
    ensures var n := FrontOf(s).len;
            var d := Decode(s[n..] + more, atEnd);
            var c := if FrontOf(s).Whole? then FrontOf(s).c else 0xFFFD;
            Decode(s + more, atEnd) == Decoded([c] + d.chars, d.rest)
  {
    hide FrontOf;
    FrontStable(s, more);
    assert (s + more)[FrontOf(s).len..] == s[FrontOf(s).len..] + more;
  }

  // Decoding in two parts, carrying the undecoded bytes over, is decoding once.
  lemma {:induction false} DecodeSplit(a: seq<Byte>, b: seq<Byte>, atEnd: bool)
    ensures var d := Decode(a, false);
            var e := Decode(d.rest + b, atEnd);
            Decode(a + b, atEnd) == Decoded(d.chars + e.chars, e.rest)
    decreases |a|
  {
    hide FrontOf, Decode;
    if a == [] || FrontOf(a).Cut? {
      DecodeStuck(a, b, atEnd);
    } else {
      DecodeSplit(a[FrontOf(a).len..], b, atEnd);
      DecodeFront(a, b, atEnd);
      DecodeFront(a, [], false);
      assert a + [] == a && a[FrontOf(a).len..] + [] == a[FrontOf(a).len..];
    }
  }

  lemma DecodeStuck(a: seq<Byte>, b: seq<Byte>, atEnd: bool)
    requires a == [] || FrontOf(a).Cut?
    ensures Decode(a, false) == Decoded([], a)
    ensures Decode(a + b, atEnd) == Decoded([] + Decode(a + b, atEnd).chars, Decode(a + b, atEnd).rest)
  {
  }

  // Well-formed text comes back unchanged.
  lemma {:induction false} DecodeEncoded(cs: Str, atEnd: bool)
    ensures Decode(EncodeAll(cs), atEnd) == Decoded(cs, [])
  {
    if cs != [] {
      var tail := EncodeAll(cs[1..]);
      FrontOfEncode(cs[0], tail);
      assert (Encode(cs[0]) + tail)[Width(cs[0])..] == tail;
      DecodeEncoded(cs[1..], atEnd);
      assert [cs[0]] + cs[1..] == cs;
    }
  }

  // --- `std::str::from_utf8` --------------------------------------------------

  // The length of the longest well-formed beginning, the text it holds, and, if
  // it is not everything, the length of the ill-formed part behind it, or None
  // when the input ends there.
  datatype FromUtf8 = FromUtf8(validUpTo: nat, text: Str, errorLen: ErrorLen)
  datatype ErrorLen = NoError | Unfinished | Invalid(len: nat)

  function ParseUtf8(s: seq<Byte>): (r: FromUtf8)
    ensures r.validUpTo <= |s|
    ensures r.errorLen.NoError? <==> r.validUpTo == |s|
    ensures r.errorLen.Invalid? ==> 1 <= r.errorLen.len && r.validUpTo + r.errorLen.len <= |s|
    decreases |s|
  {
    if s == [] then FromUtf8(0, [], NoError)
    else match FrontOf(s)
      case Cut => FromUtf8(0, [], Unfinished)
      case Broken(n) => FromUtf8(0, [], Invalid(n))
      case Whole(c, n) => var r := ParseUtf8(s[n..]); FromUtf8(n + r.validUpTo, [c] + r.text, r.errorLen)
  }

  function InvalidLen(r: FromUtf8): nat {
    if r.errorLen.Invalid? then r.errorLen.len else 0
  }

  function Replaced(r: FromUtf8): Str {
    if r.errorLen.Invalid? then [REPLACEMENT] else []
  }

  // What one call of `from_utf8` on the pending bytes contributes to the stream:
  // its text, a replacement character for an ill-formed part, and the rest.
  function Resume(s: seq<Byte>, more: seq<Byte>, atEnd: bool): Decoded {
    var r := ParseUtf8(s);
    var d := Decode(s[r.validUpTo + InvalidLen(r)..] + more, atEnd);
    Decoded(r.text + Replaced(r) + d.chars, d.rest)
  }

  lemma {:induction false} ParseDecodes(s: seq<Byte>, more: seq<Byte>, atEnd: bool)
    ensures Decode(s + more, atEnd) == Resume(s, more, atEnd)
    decreases |s|
  {
    hide FrontOf, Decode, Resume;
    if s == [] || !FrontOf(s).Whole? {
      ParseDecodesStop(s, more, atEnd);
    } else {
      DecodeFront(s, more, atEnd);
      ParseDecodes(s[FrontOf(s).len..], more, atEnd);
      ResumeWhole(s, more, atEnd);
    }
  }

  lemma ParseDecodesStop(s: seq<Byte>, more: seq<Byte>, atEnd: bool)
    requires s == [] || !FrontOf(s).Whole?
    ensures Decode(s + more, atEnd) == Resume(s, more, atEnd)
  {
    hide FrontOf, Decode;
    if s == [] || FrontOf(s).Cut? {
      assert s[0..] == s;
    } else {
      DecodeFront(s, more, atEnd);
    }
  }

  lemma ResumeWhole(s: seq<Byte>, more: seq<Byte>, atEnd: bool)
    requires s != [] && FrontOf(s).Whole?
    ensures var d := Resume(s[FrontOf(s).len..], more, atEnd);
            Resume(s, more, atEnd) == Decoded([FrontOf(s).c] + d.chars, d.rest)
  {
    hide FrontOf, Decode;
    var n := FrontOf(s).len;
    var r, r' := ParseUtf8(s), ParseUtf8(s[n..]);
    var k := r'.validUpTo + InvalidLen(r');
    assert s[n..][k..] == s[r.validUpTo + InvalidLen(r)..];
  }

  // An unfinished end is what stays undecoded.
  lemma {:induction false} ParseUnfinished(s: seq<Byte>)
    requires ParseUtf8(s).errorLen.Unfinished?
    ensures s[ParseUtf8(s).validUpTo..] != [] && FrontOf(s[ParseUtf8(s).validUpTo..]).Cut?
    decreases |s|
  {
    hide FrontOf;
    if FrontOf(s).Whole? {
      var n := FrontOf(s).len;
      ParseUnfinished(s[n..]);
      assert s[n..][ParseUtf8(s).validUpTo - n..] == s[ParseUtf8(s).validUpTo..];
    } else {
      assert s[0..] == s;
    }
  }
}
