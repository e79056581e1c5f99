// Rows keyed by number, read in ascending order.
module Ordering {
  import opened Text

  // The rows numbered above `after` and up to `upto`, in ascending order.
  function Between<T>(rows: map<int, T>, after: int, upto: int): (r: seq<T>)
    ensures |r| <= Max(0, upto - after)
    decreases upto - after
  {
    if upto <= after then []
    else Between(rows, after, upto - 1) + (if upto in rows then [rows[upto]] else [])
  }

  function Max(a: int, b: int): int {
    if a < b then b else a
  }

  // The highest number in use, zero if there is none.
  ghost function Highest(keys: set<int>): (h: int)
    ensures forall k | k in keys :: k <= h
    ensures keys != {} ==> h in keys || h == 0
    decreases |keys|
  {
    if keys == {} then 0
    else
      Inhabited(keys);
      var k :| k in keys;
      assert keys == {k} + (keys - {k});
      Max(k, Highest(keys - {k}))
  }

  // SELECT ... WHERE number > after ORDER BY number.
  ghost function Ascending<T>(rows: map<int, T>, after: int): seq<T> {
    Between(rows, after, Highest(rows.Keys))
  }

  lemma {:induction false} BetweenSkips<T>(rows: map<int, T>, after: int, b: int, c: int)
    requires b <= c && forall k | k in rows && after < k :: k <= b || c < k
    ensures Between(rows, after, b) == Between(rows, after, c)
    decreases c - b
  {
    if b < c {
      BetweenSkips(rows, after, b, c - 1);
    }
  }

  // Any upper bound reads the same rows.
  lemma AscendingUpTo<T>(rows: map<int, T>, after: int, bound: int)
    requires forall k | k in rows :: k <= bound
    ensures Ascending(rows, after) == Between(rows, after, bound)
  {
    var h := Highest(rows.Keys);
    if bound <= h {
      BetweenSkips(rows, after, bound, h);
    } else {
      BetweenSkips(rows, after, h, bound);
    }
  }

  // Rows that copy a stretch of a list are read back as that stretch.
  lemma {:induction false} BetweenIsSlice<T>(rows: map<int, T>, list: seq<T>, after: int, upto: int)
    requires 0 <= after <= upto <= |list|
    requires forall k | after < k <= upto :: k in rows && rows[k] == list[k - 1]
    ensures Between(rows, after, upto) == list[after..upto]
    decreases upto
  {
    if after < upto {
      BetweenIsSlice(rows, list, after, upto - 1);
      assert upto in rows;
      assert list[after..upto] == list[after..upto - 1] + [list[upto - 1]];
    }
  }

  lemma {:induction false} LeastExists(keys: set<int>) returns (least: int)
    requires keys != {}
    ensures least in keys && forall k | k in keys :: least <= k
    decreases |keys|
  {
    Inhabited(keys);
    var k :| k in keys;
    least := k;
    if keys != {k} {
      assert keys == {k} + (keys - {k});
      least := LeastExists(keys - {k});
      if k < least {
        least := k;
      }
    }
  }

  method InOrder<T>(rows: map<int, T>, after: int) returns (r: seq<T>)
    ensures r == Ascending(rows, after)
  {
    var rest := set k | k in rows && after < k;
    var reached := after;
    r := [];
    while rest != {}
      invariant rest == set k | k in rows && reached < k
      invariant after <= reached && r == Between(rows, after, reached)
      decreases rest
    {
      ghost var least := LeastExists(rest);
      assert least in rest && forall other | other in rest :: least <= other;
      var k :| k in rest && forall other | other in rest :: k <= other;
      assert forall j | j in rows && after < j :: j <= reached || k - 1 < j by {
        assert forall j | j in rows && reached < j :: j in rest;
      }
      BetweenSkips(rows, after, reached, k - 1);
      r := r + [rows[k]];
      rest := rest - {k};
      reached := k;
    }
    assert forall k | k in rows :: k <= reached by {
      assert forall k | k in rows && reached < k :: k in rest;
    }
    AscendingUpTo(rows, after, reached);
  }
}
