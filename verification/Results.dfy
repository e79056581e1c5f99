// Result files as both sides describe them, and what the controller accepts of a list.
module Results {
  import opened Text

  type Bytes = seq<Byte>

  const MAX_FILE: nat := 500 * 1024 * 1024
  const MAX_TOTAL: nat := 1024 * 1024 * 1024
  const MAX_FILES: nat := 100
  const MAX_ENTRIES: nat := 1000
  const MAX_PATH: nat := 4096

  datatype Artifact = Artifact(id: int, task: int, name: string, size: nat, sha256: string)

  // --- Relative names ------------------------------------------------------------

  function ByteLength(s: string): nat {
    if s == "" then 0 else ByteLength(s[..|s|-1]) + Width(s[|s|-1] as int)
  }

  function Components(path: string): (parts: seq<string>)
    ensures parts != []
  {
    if path == "" then [""]
    else
      var before := Components(path[..|path|-1]);
      if path[|path|-1] == '/' then before + [""]
      else before[..|before|-1] + [before[|before|-1] + [path[|path|-1]]]
  }

  function Join(parts: seq<string>): string {
    if |parts| == 0 then ""
    else if |parts| == 1 then parts[0]
    else Join(parts[..|parts|-1]) + "/" + parts[|parts|-1]
  }

  // Splitting at slashes: the parts hold no slash and make up the path.
  lemma {:induction false} ComponentsJoin(path: string)
    ensures Join(Components(path)) == path
    ensures forall part | part in Components(path) :: '/' !in part
  {
    if path != "" {
      var n := |path| - 1;
      var before, parts := Components(path[..n]), Components(path);
      ComponentsJoin(path[..n]);
      assert path == path[..n] + [path[n]];
      if path[n] == '/' {
        assert parts[..|parts|-1] == before;
      } else {
        assert parts[..|parts|-1] == before[..|before|-1];
        assert before[|before|-1] in before;
      }
    }
  }

  predicate ValidRelative(path: string) {
    && path != "" && ByteLength(path) <= MAX_PATH
    && (forall c | c in path :: c != '\0' && c != '\\' && c != ':')
    && path[0] != '/'
    && forall part | part in Components(path) :: part != "" && part != "." && part != ".."
  }

  // The record of a file matches its content.
  ghost predicate Describes(a: Artifact, digest: Bytes -> string, content: Bytes) {
    a.size == |content| && a.sha256 == digest(content) && |content| <= MAX_FILE
  }

  // --- What the controller accepts --------------------------------------------------

  predicate IsHash(s: string) {
    |s| == 64 && forall c | c in s :: '0' <= c <= '9' || 'a' <= c <= 'f' || 'A' <= c <= 'F'
  }

  predicate Sound(a: Artifact, task: int) {
    a.task == task && ValidRelative(a.name) && a.size <= MAX_FILE && IsHash(a.sha256)
  }

  function Sum(list: seq<Artifact>): nat {
    if list == [] then 0 else Sum(list[..|list|-1]) + list[|list|-1].size
  }

  predicate Distinct(list: seq<Artifact>) {
    forall i, j | 0 <= i < j < |list| :: list[i].id != list[j].id
  }

  predicate Cacheable(task: int, list: seq<Artifact>) {
    && |list| <= MAX_FILES && Sum(list) <= MAX_TOTAL && Distinct(list)
    && forall a | a in list :: Sound(a, task)
  }

  lemma {:induction false} SumWithout(list: seq<Artifact>, k: nat)
    requires k < |list|
    ensures Sum(list) == Sum(list[..k] + list[k + 1..]) + list[k].size
    decreases |list|
  {
    var n := |list| - 1;
    if k == n {
      assert list[..k] + list[k + 1..] == list[..n];
    } else {
      var front := list[..n];
      SumWithout(front, k);
      assert (list[..k] + list[k + 1..])[..n - 1] == front[..k] + front[k + 1..];
    }
  }

  lemma {:induction false} SumReordered(list: seq<Artifact>, other: seq<Artifact>)
    requires multiset(list) == multiset(other)
    ensures Sum(list) == Sum(other)
    decreases |list|
  {
    SameLength(list, other);
    if list != [] {
      var n := |list| - 1;
      var k := Place(list, other);
      hide Sum;
      SumReordered(list[..n], other[..k] + other[k + 1..]);
      SumWithout(other, k);
      SumWithout(list, n);
      assert list[..n] + list[n + 1..] == list[..n];
    }
  }

  // Where the last artifact of one list is in the other, and what is left without it.
  lemma Place(list: seq<Artifact>, other: seq<Artifact>) returns (k: nat)
    requires list != [] && multiset(list) == multiset(other)
    ensures k < |other| && other[k] == list[|list|-1]
    ensures multiset(list[..|list|-1]) == multiset(other[..k] + other[k + 1..])
  {
    var n := |list| - 1;
    assert list == list[..n] + [list[n]];
    assert list[n] in multiset(other);
    k :| 0 <= k < |other| && other[k] == list[n];
    assert other == other[..k] + [other[k]] + other[k + 1..];
    assert multiset(list[..n]) == multiset(list) - multiset{list[n]};
    assert multiset(other[..k] + other[k + 1..]) == multiset(other) - multiset{other[k]};
  }

  lemma SameLength(list: seq<Artifact>, other: seq<Artifact>)
    requires multiset(list) == multiset(other)
    ensures |list| == |other|
  {
    assert |multiset(list)| == |list| && |multiset(other)| == |other|;
  }

  // A list of distinct ids has no artifact twice.
  lemma OnceEach(list: seq<Artifact>, i: nat, j: nat)
    requires i < j < |list| && list[i] == list[j]
    ensures multiset(list)[list[i]] >= 2
  {
    assert list == list[..j] + list[j..];
    assert list[i] in list[..j] && list[j] in list[j..];
  }

  lemma {:induction false} CountsOnce(list: seq<Artifact>, a: Artifact)
    requires Distinct(list)
    ensures multiset(list)[a] <= 1
  {
    if list != [] {
      var n := |list| - 1;
      assert list == list[..n] + [list[n]];
      CountsOnce(list[..n], a);
    }
  }

  // What the controller accepts does not depend on the order of the list: the agent
  // sends it ordered by name.
  lemma CacheableInAnyOrder(task: int, list: seq<Artifact>, other: seq<Artifact>)
    requires multiset(list) == multiset(other) && Cacheable(task, list)
    ensures Cacheable(task, other)
  {
    SameLength(list, other);
    SumReordered(list, other);
    forall a | a in other
      ensures Sound(a, task) && a in list
    {
      assert a in multiset(other) && a in multiset(list);
    }
    forall i, j | 0 <= i < j < |other|
      ensures other[i].id != other[j].id
    {
      if other[i] == other[j] {
        OnceEach(other, i, j);
        CountsOnce(list, other[i]);
      }
      assert other[i] in other && other[j] in other;
      assert other[i] in list && other[j] in list;
      var p :| 0 <= p < |list| && list[p] == other[i];
      var q :| 0 <= q < |list| && list[q] == other[j];
    }
  }

  // The checks of `cache_artifacts`, in its order.
  datatype Verdict = Cached | Mismatch | Limit

  method CheckArtifacts(task: int, list: seq<Artifact>) returns (r: Verdict)
    ensures r.Cached? <==> Cacheable(task, list)
    ensures r.Cached? <==>
              && |list| <= 100 && Sum(list) <= 1024 * 1024 * 1024
              && (forall i, j | 0 <= i < j < |list| :: list[i].id != list[j].id)
              && forall a | a in list ::
                   && a.task == task && ValidRelative(a.name) && a.size <= 500 * 1024 * 1024 && |a.sha256| == 64
                   && forall c | c in a.sha256 :: '0' <= c <= '9' || 'a' <= c <= 'f' || 'A' <= c <= 'F'
    ensures r.Mismatch? ==> !Distinct(list) || exists a | a in list :: !Sound(a, task)
    ensures r.Limit? ==> |list| > MAX_FILES || Sum(list) > MAX_TOTAL
  {
    if |list| > MAX_FILES {
      return Limit;
    }
    var ids: set<int>, total: nat := {}, 0;
    for k := 0 to |list|
      invariant ids == set i | 0 <= i < k :: list[i].id
      invariant total == Sum(list[..k])
      invariant forall i, j | 0 <= i < j < k :: list[i].id != list[j].id
      invariant forall i | 0 <= i < k :: Sound(list[i], task)
    {
      var a := list[k];
      if a.id in ids || !Sound(a, task) {
        return Mismatch;
      }
      assert list[..k + 1][..k] == list[..k];
      ids := ids + {a.id};
      total := total + a.size;
    }
    assert list[..|list|] == list;
    return if total > MAX_TOTAL then Limit else Cached;
  }
}
