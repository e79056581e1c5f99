// Range requests, sections 14.1.2 and 14.4 of RFC 9110: the decimal texts both
// sides print and the header parser of the agent.
module Range {
  import opened Text

  const U64: nat := 0x1_0000_0000_0000_0000

  datatype RangeError = InvalidRange | NotSatisfiable
  datatype Parsed = Window(start: nat, length: nat, partial: bool) | Refused(error: RangeError)

  // --- Decimal numbers ----------------------------------------------------------

  predicate IsDigit(c: char) {
    '0' <= c <= '9'
  }

  function Print(n: nat): (s: string)
    ensures s != "" && forall c | c in s :: IsDigit(c)
  {
    var digit := [('0' as int + n % 10) as char];
    if n < 10 then digit else Print(n / 10) + digit
  }

  function ParseDigits(s: string): Option<nat> {
    if s == "" then Some(0)
    else
      var c := s[|s|-1];
      match ParseDigits(s[..|s|-1])
      case None => None
      case Some(v) =>
        if IsDigit(c) && v * 10 + (c as int - '0' as int) < U64 then Some(v * 10 + (c as int - '0' as int)) else None
  }

  // `str::parse::<u64>`: one plus sign is allowed, no text at all is not.
  function ParseU64(s: string): Option<nat> {
    var digits := if |s| > 1 && s[0] == '+' then s[1..] else s;
    if digits == "" then None else ParseDigits(digits)
  }

  lemma {:induction false} ParsePrinted(n: nat)
    ensures ParseU64(Print(n)) == if n < U64 then Some(n) else None
  {
    assert Print(n)[0] in Print(n);
    DigitsOfPrinted(n);
  }

  lemma {:induction false} DigitsOfPrinted(n: nat)
    ensures ParseDigits(Print(n)) == if n < U64 then Some(n) else None
  {
    var s := Print(n);
    if n < 10 {
      assert s[..|s|-1] == "";
    } else {
      assert s[..|s|-1] == Print(n / 10);
      DigitsOfPrinted(n / 10);
    }
  }

  // --- The header ------------------------------------------------------------------

  const UNIT := "bytes="

  function IndexOf(s: string, c: char): (k: nat)
    ensures k <= |s| && (forall j | 0 <= j < k :: s[j] != c) && (k < |s| ==> s[k] == c)
  {
    if s == "" || s[0] == c then 0 else 1 + IndexOf(s[1..], c)
  }

  function ByteRange(header: Option<string>, size: nat): Parsed {
    if header.None? then Window(0, size, false)
    else if !(UNIT <= header.value) then Refused(InvalidRange)
    else
      var value := header.value[|UNIT|..];
      var dash := IndexOf(value, '-');
      if dash == |value| then Refused(InvalidRange)
      else
        var first, last := ParseU64(value[..dash]), value[dash + 1..];
        var top := if size == 0 then 0 else size - 1;
        if first.None? then Refused(InvalidRange)
        else if last != "" && ParseU64(last).None? then Refused(InvalidRange)
        else
          var end := if last == "" || ParseU64(last).value > top then top else ParseU64(last).value;
          if first.value >= size || end < first.value then Refused(NotSatisfiable)
          else Window(first.value, end - first.value + 1, true)
  }

  // What is served always lies inside the file, and a partial answer is not empty.
  lemma RangeWithin(header: Option<string>, size: nat)
    ensures var r := ByteRange(header, size);
            r.Window? ==> r.start + r.length <= size && (r.partial <==> header.Some?) && (r.partial ==> r.length > 0)
  {
  }

  function Header(first: nat, last: Option<nat>): string {
    UNIT + Print(first) + "-" + if last.Some? then Print(last.value) else ""
  }

  lemma SplitAtDash(before: string, after: string)
    requires '-' !in before
    ensures var value := before + "-" + after;
            IndexOf(value, '-') == |before| && value[..|before|] == before && value[|before| + 1..] == after
  {
    var value := before + "-" + after;
    assert value[|before|] == '-' && value[..|before|] == before;
    assert forall j | 0 <= j < |before| :: value[j] == before[j] && before[j] in before;
  }

  lemma HeaderOpens(first: nat, last: Option<nat>)
    ensures var value := Print(first) + "-" + if last.Some? then Print(last.value) else "";
            UNIT <= Header(first, last) && Header(first, last)[|UNIT|..] == value
  {
    var value := Print(first) + "-" + if last.Some? then Print(last.value) else "";
    assert Header(first, last) == UNIT + value;
  }

  // Every printed range is read as the range it denotes, cut to the file, unless a
  // number does not fit into 64 bits.
  lemma RangeReadsBack(first: nat, last: Option<nat>, size: nat)
    ensures ByteRange(Some(Header(first, last)), size)
         == if first >= U64 || (last.Some? && last.value >= U64) then Refused(InvalidRange)
            else if first >= size || (last.Some? && last.value < first) then Refused(NotSatisfiable)
            else Window(first, (if last.Some? && last.value < size then last.value + 1 else size) - first, true)
  {
    HeaderOpens(first, last);
    assert '-' !in Print(first);
    SplitAtDash(Print(first), if last.Some? then Print(last.value) else "");
    ParsePrinted(first);
    if last.Some? {
      ParsePrinted(last.value);
    }
    hide Header, Print, ParseU64, IndexOf;
  }

  function ContentRange(first: nat, last: nat, size: nat): string {
    "bytes " + Print(first) + "-" + Print(last) + "/" + Print(size)
  }

  // --- The ranges of RFC 9110 -------------------------------------------------------

  // Section 14.1.1: numbers are any digits.
  predicate IsNumber(s: string) {
    s != "" && forall c | c in s :: IsDigit(c)
  }

  function Value(s: string): nat
    requires forall c | c in s :: IsDigit(c)
  {
    if s == "" then 0
    else
      var c := s[|s|-1];
      assert c in s && IsDigit(c);
      Value(s[..|s|-1]) * 10 + (c as int - '0' as int)
  }

  datatype RangeSpec = IntRange(first: string, last: Option<string>) | SuffixRange(length: string)

  // An int-range whose last position is before its first is invalid.
  predicate Valid(r: RangeSpec) {
    match r
    case IntRange(first, last) =>
      IsNumber(first) && (last.Some? ==> IsNumber(last.value) && Value(first) <= Value(last.value))
    case SuffixRange(length) => IsNumber(length)
  }

  function Spell(r: RangeSpec): string {
    match r
    case IntRange(first, last) => first + "-" + if last.Some? then last.value else ""
    case SuffixRange(length) => "-" + length
  }

  // A comma with any spaces around it.
  predicate IsComma(s: string) {
    ',' in s && forall c | c in s :: c == ',' || c == ' ' || c == '\t'
  }

  function SpellSet(specs: seq<RangeSpec>, commas: seq<string>): string
    requires |specs| == |commas| + 1
  {
    if commas == [] then Spell(specs[0]) else Spell(specs[0]) + commas[0] + SpellSet(specs[1..], commas[1..])
  }

  // Names of range units do not depend on case.
  predicate IsBytes(name: string) {
    |name| == 5 && forall k | 0 <= k < 5 :: name[k] == "bytes"[k] || name[k] == "BYTES"[k]
  }

  predicate Satisfiable(r: RangeSpec, size: nat)
    requires Valid(r)
  {
    match r
    case IntRange(first, _) => Value(first) < size
    case SuffixRange(length) => Value(length) > 0 && size > 0
  }

  // What a satisfiable range selects of a file.
  function Denoted(r: RangeSpec, size: nat): Parsed
    requires Valid(r) && Satisfiable(r, size)
  {
    match r
    case IntRange(first, last) =>
      var end := if last.Some? && Value(last.value) < size then Value(last.value) + 1 else size;
      Window(Value(first), end - Value(first), true)
    case SuffixRange(length) =>
      var n := if Value(length) < size then Value(length) else size;
      Window(size - n, n, true)
  }

  lemma {:induction false} DigitsParse(s: string)
    requires forall c | c in s :: IsDigit(c)
    ensures ParseDigits(s) == if Value(s) < U64 then Some(Value(s)) else None
  {
    if s != "" {
      assert s[|s|-1] in s && forall c | c in s[..|s|-1] :: c in s;
      DigitsParse(s[..|s|-1]);
    }
  }

  lemma NumberParses(s: string)
    requires IsNumber(s)
    ensures ParseU64(s) == if Value(s) < U64 then Some(Value(s)) else None
  {
    assert s[0] in s;
    DigitsParse(s);
  }

  lemma {:induction false} OtherwiseFails(s: string, k: nat)
    requires k < |s| && !('0' <= s[k] <= '9')
    ensures ParseDigits(s) == None
  {
    if k < |s| - 1 {
      OtherwiseFails(s[..|s|-1], k);
    }
  }

  lemma CommaFails(s: string)
    requires ',' in s
    ensures ParseU64(s) == None
  {
    var k :| 0 <= k < |s| && s[k] == ',';
    if |s| > 1 && s[0] == '+' {
      assert s[1..][k - 1] == ',';
      OtherwiseFails(s[1..], k - 1);
    } else {
      OtherwiseFails(s, k);
    }
  }

  // The agent after the first dash, when the unit is spelled as it expects.
  lemma Reads(first: string, rest: string, size: nat)
    requires forall c | c in first :: IsDigit(c)
    ensures var r := ByteRange(Some(UNIT + (first + "-" + rest)), size);
            var a, b := ParseU64(first), ParseU64(rest);
            && (r.Window? <==> a.Some? && (rest == "" || b.Some?) && a.value < size && (rest == "" || b.value >= a.value))
            && (r.Window? ==>
                  r == Window(a.value, (if rest != "" && b.value < size then b.value + 1 else size) - a.value, true))
  {
    var value := first + "-" + rest;
    var text := UNIT + value;
    assert UNIT <= text && text[|UNIT|..] == value;
    assert '-' !in first;
    SplitAtDash(first, rest);
    hide ParseU64, IndexOf;
  }

  lemma OtherUnits(name: string, rest: string)
    requires |name| == 5
    ensures UNIT <= name + "=" + rest <==> name == "bytes"
  {
    var text := name + "=" + rest;
    assert forall k | 0 <= k < 5 :: text[k] == name[k];
    assert name == "bytes" <==> forall k | 0 <= k < 5 :: name[k] == UNIT[k];
    assert text[5] == '=' == UNIT[5];
  }

  lemma OneIntRange(first: string, last: Option<string>, size: nat)
    requires Valid(IntRange(first, last)) && size < U64
    ensures var spec := IntRange(first, last);
            var r := ByteRange(Some(UNIT + Spell(spec)), size);
            && (r.Window? <==> Satisfiable(spec, size) && (last.Some? ==> Value(last.value) < U64))
            && (r.Window? ==> r == Denoted(spec, size))
  {
    Reads(first, if last.Some? then last.value else "", size);
    NumberParses(first);
    if last.Some? {
      NumberParses(last.value);
    }
    hide ByteRange, ParseU64, Value;
  }

  lemma SuffixRefused(rest: string, size: nat)
    ensures ByteRange(Some(UNIT + ("-" + rest)), size).Refused?
  {
    assert "" + "-" + rest == "-" + rest;
    Reads("", rest, size);
  }

  // A list that begins with an int-range: the comma is read as part of a number.
  lemma ListRefused(first: string, last: Option<string>, others: string, size: nat)
    requires Valid(IntRange(first, last)) && ',' in others
    ensures ByteRange(Some(UNIT + (Spell(IntRange(first, last)) + others)), size).Refused?
  {
    var rest := (if last.Some? then last.value else "") + others;
    assert Spell(IntRange(first, last)) + others == first + "-" + rest;
    Reads(first, rest, size);
    CommaFails(rest);
    hide ByteRange;
  }

  lemma SetRefused(specs: seq<RangeSpec>, commas: seq<string>, size: nat)
    requires |specs| == |commas| + 1 && Valid(specs[0]) && commas != [] && IsComma(commas[0])
    ensures ByteRange(Some(UNIT + SpellSet(specs, commas)), size).Refused?
  {
    hide ByteRange, Valid, IsDigit;
    var others := commas[0] + SpellSet(specs[1..], commas[1..]);
    assert SpellSet(specs, commas) == Spell(specs[0]) + others;
    hide SpellSet;
    FirstOfMany(specs[0], others, size);
  }

  lemma FirstOfMany(spec: RangeSpec, others: string, size: nat)
    requires Valid(spec) && ',' in others
    ensures ByteRange(Some(UNIT + (Spell(spec) + others)), size).Refused?
  {
    hide ByteRange;
    match spec
    case IntRange(first, last) => ListRefused(first, last, others, size);
    case SuffixRange(length) =>
      assert Spell(spec) + others == "-" + (length + others);
      SuffixRefused(length + others, size);
  }

  // Of the requests RFC 9110 allows, the agent serves exactly those for one int-range
  // that the file can satisfy, with the unit in lower case and a last position, if
  // there is one, below two to the power 64; and it serves what the range denotes.
  lemma ServedExactly(name: string, specs: seq<RangeSpec>, commas: seq<string>, size: nat)
    requires IsBytes(name) && (forall r | r in specs :: Valid(r)) && size < U64
    requires |specs| == |commas| + 1 && forall comma | comma in commas :: IsComma(comma)
    ensures Valid(specs[0])
    ensures var r := ByteRange(Some(name + "=" + SpellSet(specs, commas)), size);
            && (r.Window? <==>
                  && name == "bytes" && |specs| == 1 && specs[0].IntRange? && Satisfiable(specs[0], size)
                  && (specs[0].last.Some? ==> Value(specs[0].last.value) < U64))
            && (r.Window? ==> r == Denoted(specs[0], size))
  {
    hide ByteRange, Valid, IsDigit, IsNumber, IsComma, Value;
    var rest := SpellSet(specs, commas);
    assert Valid(specs[0]);
    if name != "bytes" {
      OtherUnitRefused(name, rest, size);
    } else {
      assert name + "=" + rest == UNIT + rest;
      if commas != [] {
        SetRefused(specs, commas, size);
      } else if specs[0].IntRange? {
        OneIntRange(specs[0].first, specs[0].last, size);
      } else {
        SuffixRefused(specs[0].length, size);
      }
    }
  }

  lemma OtherUnitRefused(name: string, rest: string, size: nat)
    requires |name| == 5 && name != "bytes"
    ensures ByteRange(Some(name + "=" + rest), size).Refused?
  {
    OtherUnits(name, rest);
    hide ParseU64, IndexOf;
  }

  lemma {:induction false} PrintedValue(n: nat)
    ensures Value(Print(n)) == n
  {
    var s := Print(n);
    if n >= 10 {
      assert s[..|s|-1] == Print(n / 10);
      PrintedValue(n / 10);
    } else {
      assert s[..|s|-1] == "";
    }
  }

  // Requests of a file of ten bytes that the RFC has served and the agent refuses:
  // the last byte, two ranges, a last position too large for 64 bits, and capitals.
  lemma SuffixExample()
    ensures Valid(SuffixRange("1")) && Satisfiable(SuffixRange("1"), 10) && ByteRange(Some("bytes=-1"), 10).Refused?
  {
    assert "1"[..0] == "" && Value("1") == 1;
    SuffixRefused("1", 10);
    assert UNIT + ("-" + "1") == "bytes=-1";
  }

  lemma ListExample()
    ensures ByteRange(Some("bytes=0-1,3-4"), 10).Refused?
  {
    hide ByteRange, ParseU64;
    Reads("0", "1,3-4", 10);
    assert "1,3-4"[1] == ',';
    CommaFails("1,3-4");
    assert UNIT + ("0" + "-" + "1,3-4") == "bytes=0-1,3-4";
  }

  lemma LargeExample()
    ensures var spec := IntRange(Print(0), Some(Print(U64)));
            && Valid(spec) && Satisfiable(spec, 10) && Denoted(spec, 10) == Window(0, 10, true)
            && ByteRange(Some(UNIT + Spell(spec)), 10).Refused?
  {
    hide ByteRange, Print, Value;
    PrintedValue(0);
    PrintedValue(U64);
    OneIntRange(Print(0), Some(Print(U64)), 10);
  }

  lemma CapitalsExample()
    ensures IsBytes("BYTES") && ByteRange(Some("BYTES=0-1"), 10).Refused?
  {
    OtherUnits("BYTES", "0-1");
    assert "BYTES" + "=" + "0-1" == "BYTES=0-1";
  }
}
