// Bytes, Unicode scalar values and text as the rest of the project uses them.
// A Rust `String` is a sequence of scalar values; its `len()` is the number of
// bytes of its UTF-8 encoding.
module Text {
  datatype Option<+T> = None | Some(value: T)

  type Byte = b: int | 0 <= b < 0x100

  type Scalar = v: int | 0 <= v < 0xD800 || 0xE000 <= v < 0x110000

  type Str = seq<Scalar>

  const REPLACEMENT: Scalar := 0xFFFD
  const TAB: Scalar := 0x09
  const NEWLINE: Scalar := 0x0A
  const BELL: Scalar := 0x07
  const ESC: Scalar := 0x1B
  const BACKSLASH: Scalar := 0x5C
  const OPEN_BRACKET: Scalar := 0x5B
  const CLOSE_BRACKET: Scalar := 0x5D

  // Number of bytes a scalar value takes in UTF-8.
  function Width(c: Scalar): (n: nat)
    ensures 1 <= n <= 4
  {
    if c < 0x80 then 1 else if c < 0x800 then 2 else if c < 0x10000 then 3 else 4
  }

  // Rust's `String::len`.
  function ByteLen(s: Str): (n: nat)
    ensures |s| <= n
  {
    if s == [] then 0 else ByteLen(s[..|s|-1]) + Width(s[|s|-1])
  }

  // Rust's `char::is_control`: the general category Cc.
  predicate IsControl(c: Scalar) {
    c < 0x20 || 0x7F <= c < 0xA0
  }

  function Concat<T>(parts: seq<seq<T>>): seq<T> {
    if parts == [] then [] else parts[0] + Concat(parts[1..])
  }

  lemma {:induction false} ConcatSnoc<T>(parts: seq<seq<T>>, last: seq<T>)
    ensures Concat(parts + [last]) == Concat(parts) + last
  {
    if parts == [] {
      assert parts + [last] == [last];
      assert Concat([last]) == last + Concat([last][1..]);
    } else {
      assert (parts + [last])[1..] == parts[1..] + [last];
      ConcatSnoc(parts[1..], last);
    }
  }

  lemma SameMap<K, V>(a: map<K, V>, b: map<K, V>)
    requires a.Keys == b.Keys && forall k | k in a :: a[k] == b[k]
    ensures a == b
  {
  }

  lemma Inhabited(s: set<int>)
    requires s != {}
    ensures exists x :: x in s
  {
    assert (forall x :: x !in s) ==> s == {};
  }
}
