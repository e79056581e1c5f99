// The names under which a snapshot lists the files of a tree.
module Trees {
  import opened Text
  import Utf8
  import opened Results
  import opened Snapshot

  // A regular file with this content is reached by these names, one below the other.
  ghost predicate Leads(entries: seq<Entry>, parts: seq<string>, content: Bytes)
    decreases |parts|
  {
    parts != [] && exists k :: 0 <= k < |entries| && LeadsBy(entries[k], parts, content)
  }

  ghost predicate LeadsBy(e: Entry, parts: seq<string>, content: Bytes)
    requires parts != []
    decreases |parts|, 0
  {
    e.name == parts[0]
    && if |parts| == 1 then e.node == File(content) else e.node.Dir? && Leads(e.node.entries, parts[1..], content)
  }

  // No file system has empty names.
  predicate Named(entries: seq<Entry>) {
    forall e | e in entries :: e.name != "" && (e.node.Dir? ==> Named(e.node.entries))
  }

  // Siblings have different names, without separators.
  predicate Proper(entries: seq<Entry>) {
    && (forall e | e in entries ::
          && e.name != "" && '/' !in e.name && '\\' !in e.name
          && (e.node.Dir? ==> Proper(e.node.entries)))
    && forall i, j | 0 <= i < j < |entries| :: entries[i].name != entries[j].name
  }

  // --- Names ----------------------------------------------------------------------------

  // Character by character, a backslash becomes a slash.
  lemma {:induction false} SlashedAt(s: string)
    ensures |Slashed(s)| == |s|
    ensures forall k | 0 <= k < |s| :: Slashed(s)[k] == if s[k] == '\\' then '/' else s[k]
  {
    if s != "" {
      SlashedAt(s[..|s|-1]);
    }
  }

  lemma {:induction false} JoinFront(parts: seq<string>)
    requires |parts| > 1
    ensures Join(parts) == parts[0] + "/" + Join(parts[1..])
    decreases |parts|
  {
    var n := |parts| - 1;
    if n > 1 {
      JoinFront(parts[..n]);
      assert parts[..n][1..] == parts[1..][..n - 1];
      var a, b, c := parts[0] + "/", Join(parts[1..][..n - 1]), "/" + parts[n];
      assert a + b + c == a + (b + c);
    } else {
      assert parts[..1] == [parts[0]] && parts[1..] == [parts[1]];
    }
  }

  // Where these names lead below a directory.
  function Under(directory: string, parts: seq<string>): string {
    if directory == "" then Join(parts) else directory + "/" + Join(parts)
  }

  lemma UnderPath(directory: string, parts: seq<string>)
    requires parts != [] && parts[0] != ""
    ensures |parts| == 1 ==> Under(directory, parts) == Path(directory, parts[0])
    ensures |parts| > 1 ==> Under(directory, parts) == Under(Path(directory, parts[0]), parts[1..])
  {
    if |parts| > 1 {
      JoinFront(parts);
      var rest := Join(parts[1..]);
      assert directory + "/" + (parts[0] + "/" + rest) == directory + "/" + parts[0] + "/" + rest;
    }
  }

  // --- What is listed is what is there --------------------------------------------------

  lemma {:induction false} HoldingWithin(entries: seq<Entry>, k: nat, directory: string)
    requires k < |entries|
    ensures Holding(entries[k], directory).listed <= Contents(entries, directory).listed
    decreases k
  {
    if k > 0 {
      assert entries[1..][k - 1] == entries[k];
      HoldingWithin(entries[1..], k - 1, directory);
    }
  }

  lemma {:induction false} IsListed(entries: seq<Entry>, directory: string, parts: seq<string>, content: Bytes)
    requires Named(entries) && Leads(entries, parts, content)
    ensures (Slashed(Under(directory, parts)), content) in Contents(entries, directory).listed
    decreases |parts|
  {
    var k :| 0 <= k < |entries| && LeadsBy(entries[k], parts, content);
    var e := entries[k];
    assert e in entries;
    UnderPath(directory, parts);
    HoldingWithin(entries, k, directory);
    if |parts| > 1 {
      IsListed(e.node.entries, Path(directory, e.name), parts[1..], content);
    }
  }

  lemma {:induction false} IsThere(entries: seq<Entry>, directory: string, name: string, content: Bytes) returns (parts: seq<string>)
    requires Named(entries) && (name, content) in Contents(entries, directory).listed
    ensures Leads(entries, parts, content) && name == Slashed(Under(directory, parts))
    decreases entries, 0
  {
    var e, tail := entries[0], entries[1..];
    assert e in entries && forall x | x in tail :: x in entries;
    if (name, content) in Holding(e, directory).listed {
      parts := IsHeld(e, directory, name, content);
      assert LeadsBy(entries[0], parts, content);
    } else {
      parts := IsThere(tail, directory, name, content);
      var k :| 0 <= k < |tail| && LeadsBy(tail[k], parts, content);
      assert entries[k + 1] == tail[k];
    }
  }

  lemma {:induction false} IsHeld(e: Entry, directory: string, name: string, content: Bytes) returns (parts: seq<string>)
    requires e.name != "" && (e.node.Dir? ==> Named(e.node.entries))
    requires (name, content) in Holding(e, directory).listed
    ensures parts != [] && LeadsBy(e, parts, content) && name == Slashed(Under(directory, parts))
    decreases e, 1
  {
    if e.node.Dir? {
      var below := IsThere(e.node.entries, Path(directory, e.name), name, content);
      parts := [e.name] + below;
      assert parts[1..] == below;
    } else {
      parts := [e.name];
    }
    UnderPath(directory, parts);
  }

  // The list of a tree holds exactly its regular files, each under the names that lead
  // to it from the result directory, joined by slashes.
  lemma ListedIffThere(root: seq<Entry>, name: string, content: Bytes)
    requires Named(root)
    ensures (name, content) in Contents(root, "").listed
       <==> exists parts :: Leads(root, parts, content) && name == Slashed(Join(parts))
  {
    if (name, content) in Contents(root, "").listed {
      var parts := IsThere(root, "", name, content);
      assert Leads(root, parts, content) && name == Slashed(Join(parts));
    } else if parts :| Leads(root, parts, content) && name == Slashed(Join(parts)) {
      IsListed(root, "", parts, content);
    }
  }

  lemma {:induction false} FindHas(entries: seq<Entry>, name: string)
    requires Find(entries, name).Some?
    ensures Entry(name, Find(entries, name).value) in entries
  {
    if entries[0].name != name {
      FindHas(entries[1..], name);
    }
  }

  lemma {:induction false} LocatedLeads(root: seq<Entry>, parts: seq<string>, n: string, content: Bytes)
    requires Located(root, parts).Some? && Entry(n, File(content)) in Located(root, parts).value
    ensures Leads(root, parts + [n], content)
    decreases |parts|
  {
    var all := parts + [n];
    if parts == [] {
      var k :| 0 <= k < |root| && root[k] == Entry(n, File(content));
      assert LeadsBy(root[k], all, content);
    } else {
      FindHas(root, parts[0]);
      var below := Find(root, parts[0]).value.entries;
      LocatedLeads(below, parts[1..], n, content);
      assert all[1..] == parts[1..] + [n];
      var k :| 0 <= k < |root| && root[k] == Entry(parts[0], Dir(below));
      assert LeadsBy(root[k], all, content);
    }
  }

  // A file in a directory below the root is listed under its whole path.
  lemma FileIsListed(root: seq<Entry>, parts: seq<string>, n: string, content: Bytes)
    requires Named(root) && Located(root, parts).Some? && Entry(n, File(content)) in Located(root, parts).value
    ensures (Slashed(Join(parts + [n])), content) in Contents(root, "").listed
  {
    LocatedLeads(root, parts, n, content);
    IsListed(root, "", parts + [n], content);
  }

  // --- Different files have different names ---------------------------------------------

  predicate Clean(parts: seq<string>) {
    parts != [] && forall part | part in parts :: '/' !in part && '\\' !in part
  }

  lemma ComponentsSnoc(s: string, c: char)
    ensures var before := Components(s);
            Components(s + [c])
            == if c == '/' then before + [""] else before[..|before|-1] + [before[|before|-1] + [c]]
  {
    assert (s + [c])[..|s|] == s;
  }

  lemma {:induction false} AppendComponent(a: string, b: string)
    requires '/' !in b
    ensures Components(a + "/" + b) == Components(a) + [b]
  {
    hide Components;
    if b == "" {
      assert a + "/" + b == a + ['/'];
      ComponentsSnoc(a, '/');
    } else {
      var n := |b| - 1;
      AppendComponent(a, b[..n]);
      assert b == b[..n] + [b[n]] && b[n] in b;
      assert a + "/" + b == (a + "/" + b[..n]) + [b[n]];
      ComponentsSnoc(a + "/" + b[..n], b[n]);
    }
  }

  lemma {:induction false} OneComponent(b: string)
    requires '/' !in b
    ensures Components(b) == [b]
  {
    if b != "" {
      var n := |b| - 1;
      OneComponent(b[..n]);
      assert b == b[..n] + [b[n]] && b[n] in b;
    }
  }

  lemma {:induction false} JoinComponents(parts: seq<string>)
    requires Clean(parts)
    ensures Components(Join(parts)) == parts
  {
    hide Components;
    var n := |parts| - 1;
    var front := parts[..n];
    assert parts[n] in parts;
    if n == 0 {
      OneComponent(parts[0]);
      assert parts == [parts[0]];
    } else {
      assert forall part | part in front :: part in parts;
      JoinComponents(front);
      AppendComponent(Join(front), parts[n]);
      assert parts == front + [parts[n]];
    }
  }

  lemma {:induction false} JoinHasNoBackslash(parts: seq<string>)
    requires Clean(parts)
    ensures '\\' !in Join(parts)
  {
    var n := |parts| - 1;
    assert parts[n] in parts;
    if n > 0 {
      assert forall part | part in parts[..n] :: part in parts;
      JoinHasNoBackslash(parts[..n]);
    }
  }

  lemma {:induction false} SlashedJoins(a: string, b: string)
    ensures Slashed(a + b) == Slashed(a) + Slashed(b)
  {
    if b == "" {
      assert a + b == a;
    } else {
      var n := |b| - 1;
      assert (a + b)[..|a| + n] == a + b[..n];
      SlashedJoins(a, b[..n]);
    }
  }

  lemma SlashedSame(s: string)
    requires '\\' !in s
    ensures Slashed(s) == s
  {
    SlashedAt(s);
    forall k | 0 <= k < |s|
      ensures Slashed(s)[k] == s[k]
    {
      assert s[k] in s;
    }
  }

  // Below one directory a name is the name of one list of parts.
  lemma UnderIsOne(directory: string, p: seq<string>, q: seq<string>)
    requires Clean(p) && Clean(q) && Slashed(Under(directory, p)) == Slashed(Under(directory, q))
    ensures p == q
  {
    JoinHasNoBackslash(p);
    JoinHasNoBackslash(q);
    SlashedSame(Join(p));
    SlashedSame(Join(q));
    if directory != "" {
      SlashedJoins(directory + "/", Join(p));
      SlashedJoins(directory + "/", Join(q));
      var a := Slashed(directory + "/");
      assert (a + Join(p))[|a|..] == Join(p) && (a + Join(q))[|a|..] == Join(q);
    }
    JoinComponents(p);
    JoinComponents(q);
  }

  lemma {:induction false} ProperIsNamed(entries: seq<Entry>)
    requires Proper(entries)
    ensures Named(entries)
  {
    forall e | e in entries && e.node.Dir?
      ensures Named(e.node.entries)
    {
      ProperIsNamed(e.node.entries);
    }
  }

  lemma {:induction false} LeadsClean(entries: seq<Entry>, parts: seq<string>, content: Bytes)
    requires Proper(entries) && Leads(entries, parts, content)
    ensures Clean(parts)
    decreases |parts|
  {
    var k :| 0 <= k < |entries| && LeadsBy(entries[k], parts, content);
    assert entries[k] in entries;
    if |parts| > 1 {
      LeadsClean(entries[k].node.entries, parts[1..], content);
      assert parts == [parts[0]] + parts[1..];
    }
  }

  // The parts lead to one file.
  lemma {:induction false} OneFile(entries: seq<Entry>, parts: seq<string>, content: Bytes, other: Bytes)
    requires Proper(entries) && Leads(entries, parts, content) && Leads(entries, parts, other)
    ensures content == other
    decreases |parts|
  {
    var k :| 0 <= k < |entries| && LeadsBy(entries[k], parts, content);
    var j :| 0 <= j < |entries| && LeadsBy(entries[j], parts, other);
    assert entries[k] in entries && entries[j] in entries;
    assert k == j;
    if |parts| > 1 {
      OneFile(entries[k].node.entries, parts[1..], content, other);
    }
  }

  lemma {:induction false} ListedOnce(entries: seq<Entry>, directory: string, x: (string, Bytes))
    requires Proper(entries)
    ensures Contents(entries, directory).listed[x] <= 1
    decreases entries
  {
    if entries != [] {
      var e, tail := entries[0], entries[1..];
      assert e in entries && forall y | y in tail :: y in entries;
      ListedOnce(tail, directory, x);
      if e.node.Dir? {
        ListedOnce(e.node.entries, Path(directory, e.name), x);
      }
      NotInBoth(entries, directory, x);
    }
  }

  lemma NotInBoth(entries: seq<Entry>, directory: string, x: (string, Bytes))
    requires Proper(entries) && entries != []
    ensures x !in Holding(entries[0], directory).listed || x !in Contents(entries[1..], directory).listed
  {
    var e, tail := entries[0], entries[1..];
    assert e in entries && forall y | y in tail :: y in entries;
    ProperIsNamed(entries);
    ProperIsNamed(tail);
    if x in Holding(e, directory).listed && x in Contents(tail, directory).listed {
      var p := IsHeld(e, directory, x.0, x.1);
      var q := IsThere(tail, directory, x.0, x.1);
      assert LeadsBy(entries[0], p, x.1) && Leads(entries, p, x.1);
      LeadsClean(entries, p, x.1);
      LeadsClean(tail, q, x.1);
      SiblingsDiffer(entries, p, q, x.1);
      UnderIsOne(directory, p, q);
    }
  }

  lemma SiblingsDiffer(entries: seq<Entry>, p: seq<string>, q: seq<string>, content: Bytes)
    requires Proper(entries) && entries != [] && p != [] && q != []
    requires LeadsBy(entries[0], p, content) && Leads(entries[1..], q, content)
    ensures p[0] != q[0]
  {
    var k :| 0 <= k < |entries[1..]| && LeadsBy(entries[1..][k], q, content);
    assert entries[k + 1] == entries[1..][k];
  }

  // If siblings have different names without separators, no two files are listed under
  // one name, and no file twice.
  lemma NamesAreDistinct(root: seq<Entry>, x: (string, Bytes), y: (string, Bytes))
    requires Proper(root) && x in Contents(root, "").listed && y in Contents(root, "").listed
    ensures Contents(root, "").listed[x] == 1
    ensures x.0 == y.0 ==> x == y
  {
    ProperIsNamed(root);
    ListedOnce(root, "", x);
    var p := IsThere(root, "", x.0, x.1);
    var q := IsThere(root, "", y.0, y.1);
    if x.0 == y.0 {
      LeadsClean(root, p, x.1);
      LeadsClean(root, q, y.1);
      UnderIsOne("", p, q);
      OneFile(root, p, x.1, y.1);
    }
  }

  // --- Valid names -------------------------------------------------------------------

  // The valid names are what joins names of files and directories: not empty, not the
  // two that mean a directory itself and the one above, without separators, colons and
  // the character zero, and 4096 bytes at most.
  lemma ValidIffJoined(path: string)
    ensures ValidRelative(path) <==>
              exists parts ::
                && path == Join(parts) && parts != [] && ByteLength(path) <= 4096
                && forall part | part in parts ::
                     && part != "" && part != "." && part != ".."
                     && forall c | c in part :: c != '/' && c != '\\' && c != ':' && c != '\0'
  {
    ComponentsJoin(path);
    if ValidRelative(path) {
      var parts := Components(path);
      forall part, c | part in parts && c in part
        ensures c != '/' && c != '\\' && c != ':' && c != '\0'
      {
        PartWithin(parts, part, c);
      }
      assert path == Join(parts);
    }
    forall parts: seq<string> | path == Join(parts) && parts != [] && ByteLength(path) <= 4096
      && forall part | part in parts ::
           && part != "" && part != "." && part != ".."
           && forall c | c in part :: c != '/' && c != '\\' && c != ':' && c != '\0'
      ensures ValidRelative(path)
    {
      JoinIsValid(parts);
    }
  }

  lemma {:induction false} PartWithin(parts: seq<string>, part: string, c: char)
    requires part in parts && c in part
    ensures c in Join(parts)
  {
    var n := |parts| - 1;
    if n > 0 && part != parts[n] {
      PartWithin(parts[..n], part, c);
    }
  }

  lemma {:induction false} JoinWithin(parts: seq<string>, c: char)
    requires c in Join(parts) && c != '/'
    ensures exists part :: part in parts && c in part
  {
    var n := |parts| - 1;
    if n == 0 || c in parts[n] {
      assert parts[n] in parts;
    } else {
      JoinWithin(parts[..n], c);
    }
  }

  lemma {:induction false} JoinStarts(parts: seq<string>)
    requires parts != [] && parts[0] != ""
    ensures Join(parts) != "" && Join(parts)[0] == parts[0][0]
  {
    if |parts| > 1 {
      JoinStarts(parts[..|parts|-1]);
    }
  }

  lemma JoinIsValid(parts: seq<string>)
    requires parts != [] && ByteLength(Join(parts)) <= 4096
    requires forall part | part in parts ::
               && part != "" && part != "." && part != ".."
               && forall c | c in part :: c != '/' && c != '\\' && c != ':' && c != '\0'
    ensures ValidRelative(Join(parts))
  {
    assert parts[0] in parts && parts[0][0] in parts[0];
    JoinStarts(parts);
    JoinComponents(parts);
    forall c | c in Join(parts)
      ensures c != '\0' && c != '\\' && c != ':'
    {
      if c != '/' {
        JoinWithin(parts, c);
      }
    }
  }

  function Chars(path: string): Str {
    seq(|path|, k requires 0 <= k < |path| => path[k] as int)
  }

  // The length that is limited is that of the encoded name.
  lemma {:induction false} ByteLengthIsEncoded(path: string)
    ensures ByteLength(path) == |Utf8.EncodeAll(Chars(path))|
  {
    if path != "" {
      var n := |path| - 1;
      ByteLengthIsEncoded(path[..n]);
      assert Chars(path) == Chars(path[..n]) + [path[n] as int];
      Utf8.EncodeAllSnoc(Chars(path[..n]), path[n] as int);
    }
  }
}
