// Copying a result directory into private storage: a bounded walk that lists every
// regular file, or fails and leaves nothing behind.
module Snapshot {
  import opened Text
  import opened Results

  // A directory tree as `read_dir` presents it. `Link` is anything `linked`
  // reports, `Special` anything else that is neither a file nor a directory.
  datatype Node = File(content: Bytes) | Dir(entries: seq<Entry>) | Link | Special
  datatype Entry = Entry(name: string, node: Node)

  datatype Error =
    | EntryLimit | SymlinkRejected | SpecialFileRejected | FileCountLimit | FileSizeLimit | InvalidName | SizeLimit | Io
  datatype Result = Listed(artifacts: seq<Artifact>) | InvalidDirectory | DirectoryNotRegular | Failed(error: Error)

  // --- What a tree holds -----------------------------------------------------------

  function Slashed(s: string): string {
    if s == "" then "" else Slashed(s[..|s|-1]) + [if s[|s|-1] == '\\' then '/' else s[|s|-1]]
  }

  function Path(directory: string, name: string): string {
    if directory == "" then name else directory + "/" + name
  }

  // How many entries, files and bytes, whether nothing forbids copying them, and
  // the names and contents of the regular files.
  datatype Tally = Tally(entries: nat, files: nat, bytes: nat, clean: bool, listed: multiset<(string, Bytes)>)

  const NOTHING := Tally(0, 0, 0, true, multiset{})

  function Plus(a: Tally, b: Tally): Tally {
    Tally(a.entries + b.entries, a.files + b.files, a.bytes + b.bytes, a.clean && b.clean, a.listed + b.listed)
  }

  // The entry itself, without what is below it.
  function Itself(e: Entry, directory: string): Tally {
    match e.node
    case File(content) =>
      var name := Slashed(Path(directory, e.name));
      Tally(1, 1, |content|, |content| <= MAX_FILE && ValidRelative(name), multiset{(name, content)})
    case Dir(_) => Tally(1, 0, 0, true, multiset{})
    case _ => Tally(1, 0, 0, false, multiset{})
  }

  function Holding(e: Entry, directory: string): Tally
    decreases e, 1
  {
    if e.node.Dir? then Plus(Itself(e, directory), Contents(e.node.entries, Path(directory, e.name)))
    else Itself(e, directory)
  }

  function Contents(entries: seq<Entry>, directory: string): Tally
    decreases entries, 0
  {
    if entries == [] then NOTHING else Plus(Holding(entries[0], directory), Contents(entries[1..], directory))
  }

  // The tree can be copied.
  predicate Copyable(t: Tally) {
    t.clean && t.entries <= MAX_ENTRIES && t.files <= MAX_FILES && t.bytes <= MAX_TOTAL
  }

  // The directory a path of names leads to, through regular directories only.
  function Located(entries: seq<Entry>, parts: seq<string>): Option<seq<Entry>>
    decreases parts
  {
    if parts == [] then Some(entries)
    else
      match Find(entries, parts[0])
      case Some(Dir(below)) => Located(below, parts[1..])
      case _ => None
  }

  function Find(entries: seq<Entry>, name: string): Option<Node> {
    if entries == [] then None
    else if entries[0].name == name then Some(entries[0].node)
    else Find(entries[1..], name)
  }

  // --- The walk ----------------------------------------------------------------------

  // A directory still to be read, with its path below the root.
  datatype Directory = Directory(path: string, entries: seq<Entry>)

  function Below(stack: seq<Directory>): Tally {
    if stack == [] then NOTHING
    else Plus(Below(stack[..|stack|-1]), Contents(stack[|stack|-1].entries, stack[|stack|-1].path))
  }

  // What a list of artifacts gives a reader of the storage.
  function Listing(artifacts: seq<Artifact>, stored: map<int, Bytes>): multiset<(string, Bytes)> {
    if artifacts == [] then multiset{}
    else
      var a := artifacts[|artifacts|-1];
      Listing(artifacts[..|artifacts|-1], stored) + multiset{(a.name, if a.id in stored then stored[a.id] else [])}
  }

  // The artifacts name new files, in the order of their ids, and describe them.
  ghost predicate Lists(artifacts: seq<Artifact>, task: int, first: int, digest: Bytes -> string, stored: map<int, Bytes>) {
    forall k | 0 <= k < |artifacts| ::
      && artifacts[k].id == first + k && artifacts[k].id in stored && artifacts[k].task == task
      && ValidRelative(artifacts[k].name) && Describes(artifacts[k], digest, stored[artifacts[k].id])
  }

  // The storage holds what it held and the files of the artifacts.
  ghost predicate Extends(before: map<int, Bytes>, stored: map<int, Bytes>, first: int, count: nat) {
    && (forall id :: id in stored <==> id in before || first <= id < first + count)
    && (forall id | id in before :: id < first && stored[id] == before[id])
  }

  ghost predicate Registers(before: map<int, Bytes>, stored: map<int, Bytes>, first: int, artifacts: seq<Artifact>) {
    Extends(before, stored, first, |artifacts|) && forall k | 0 <= k < |artifacts| :: artifacts[k].id == first + k
  }

  lemma RegistersOne(before: map<int, Bytes>, was: map<int, Bytes>, first: int, earlier: seq<Artifact>, a: Artifact,
                     stored: map<int, Bytes>)
    requires Registers(before, was, first, earlier)
    requires a.id == first + |earlier| && a.id in stored && stored == was[a.id := stored[a.id]]
    ensures a.id !in was && Registers(before, stored, first, earlier + [a])
  {
  }

  lemma ListsOne(was: map<int, Bytes>, first: int, earlier: seq<Artifact>, task: int, digest: Bytes -> string, a: Artifact,
                 stored: map<int, Bytes>)
    requires Lists(earlier, task, first, digest, was)
    requires a.id == first + |earlier| && a.id in stored && stored == was[a.id := stored[a.id]]
    requires a.task == task && ValidRelative(a.name) && Describes(a, digest, stored[a.id])
    ensures Lists(earlier + [a], task, first, digest, stored)
  {
    hide ValidRelative, Describes;
  }

  lemma ListingOne(was: map<int, Bytes>, first: int, earlier: seq<Artifact>, task: int, digest: Bytes -> string, a: Artifact,
                   stored: map<int, Bytes>)
    requires Lists(earlier, task, first, digest, was)
    requires a.id == first + |earlier| && a.id in stored && stored == was[a.id := stored[a.id]]
    ensures Sum(earlier + [a]) == Sum(earlier) + a.size
    ensures Listing(earlier + [a], stored) == Listing(earlier, was) + multiset{(a.name, stored[a.id])}
  {
    assert (earlier + [a])[..|earlier|] == earlier;
    hide ValidRelative, Describes;
    ListingStays(earlier, was, stored);
  }

  class Walk {
    const digest: Bytes -> string
    const task: int
    const first: int                 // ids from here on are unused
    const faultAt: Option<nat>       // the call to the file system that fails, if one does
    var stored: map<int, Bytes>
    var pending: seq<Directory>
    var artifacts: seq<Artifact>
    var total: nat
    var visited: nat
    var calls: nat
    ghost var before: map<int, Bytes>

    constructor (digest: Bytes -> string, task: int, first: int, faultAt: Option<nat>, stored: map<int, Bytes>)
      requires forall id | id in stored :: id < first
      ensures this.digest == digest && this.task == task && this.first == first && this.faultAt == faultAt
      ensures this.stored == stored == before && pending == [] && Done() == NOTHING && Consistent()
    {
      this.digest, this.task, this.first, this.faultAt := digest, task, first, faultAt;
      this.stored, before := stored, stored;
      pending, artifacts, total, visited, calls := [], [], 0, 0, 0;
    }

    ghost predicate Accounted()
      reads `before, `stored, `artifacts, `total
    {
      && Extends(before, stored, first, |artifacts|)
      && Lists(artifacts, task, first, digest, stored)
      && total == Sum(artifacts) <= MAX_TOTAL
    }

    // What has been handled so far.
    ghost function Done(): Tally
      reads `visited, `artifacts, `total, `stored
    {
      Tally(visited, |artifacts|, total, true, Listing(artifacts, stored))
    }

    ghost predicate Consistent()
      reads `before, `stored, `artifacts, `total, `visited
    {
      Accounted() && Copyable(Done())
    }

    // One call to the file system.
    method Call() returns (ok: bool)
      modifies this`calls
      ensures faultAt.None? ==> ok
    {
      ok := faultAt != Some(calls);
      calls := calls + 1;
    }

    // Copies a checked file into the storage, block by block.
    method Copy(id: int, content: Bytes) returns (failure: Option<Error>, size: nat)
      requires id !in stored && total <= MAX_TOTAL && |content| <= MAX_FILE
      modifies this`stored, this`total, this`calls
      ensures id in stored && stored == old(stored)[id := stored[id]]
      ensures failure.None? ==> stored[id] == content && size == |content| && total == old(total) + |content| <= MAX_TOTAL
      ensures failure.Some? ==> failure == Some(SizeLimit) || failure == Some(Io)
      ensures failure == Some(SizeLimit) ==> old(total) + |content| > MAX_TOTAL
      ensures failure == Some(Io) ==> faultAt.Some?
    {
      stored := stored[id := []];
      size := 0;
      while true
        invariant id in stored && stored == old(stored)[id := stored[id]]
        invariant size <= |content| && stored[id] == content[..size] && total == old(total) + size <= MAX_TOTAL
        decreases |content| - size
      {
        var ok := Call();
        if !ok {
          return Some(Io), size;
        }
        var count := if |content| - size < BLOCK then |content| - size else BLOCK;
        if count == 0 {
          break;
        }
        if size + count > MAX_FILE || total + count > MAX_TOTAL {
          return Some(SizeLimit), size;
        }
        var block := content[size..size + count];
        assert content[..size + count] == content[..size] + block;
        stored := stored[id := stored[id] + block];
        size, total := size + count, total + count;
      }
      assert content[..size] == content;
      return None, size;
    }

    // What has been registered can be removed without touching anything else.
    ghost predicate Registered()
      reads `before, `stored, `artifacts
    {
      Registers(before, stored, first, artifacts)
    }

    lemma AccountedIsRegistered()
      requires Accounted()
      ensures Registered()
    {
    }

    method AddFile(name: string, content: Bytes) returns (failure: Option<Error>)
      requires Accounted() && |content| <= MAX_FILE && ValidRelative(name)
      modifies this`stored, this`artifacts, this`total, this`calls
      ensures failure.None? ==>
                && Accounted() && |artifacts| == |old(artifacts)| + 1 && total == old(total) + |content|
                && Listing(artifacts, stored) == Listing(old(artifacts), old(stored)) + multiset{(name, content)}
      ensures failure.Some? ==>
                && Registered() && (failure.value.Io? || failure.value.SizeLimit?)
                && (failure.value.Io? ==> faultAt.Some?)
                && (failure.value.SizeLimit? ==> old(total) + |content| > MAX_TOTAL)
    {
      var id := first + |artifacts|;
      AccountedIsRegistered();
      var ok := Call();
      if !ok {
        return Some(Io);
      }
      var earlier, was := artifacts, stored;
      artifacts := artifacts + [Artifact(id, task, name, 0, "")];
      assert id !in was;
      hide Extends, Lists, Registers, ValidRelative, Describes, Listing, Sum;
      var size: nat;
      failure, size := Copy(id, content);
      RegistersOne(before, was, first, earlier, artifacts[|earlier|], stored);
      if failure.Some? {
        return;
      }
      var a := Artifact(id, task, name, size, digest(content));
      artifacts := earlier + [a];
      RegistersOne(before, was, first, earlier, a, stored);
      assert Describes(a, digest, content) by {
        DescribesCopy(a, digest, content);
      }
      ListsOne(was, first, earlier, task, digest, a, stored);
      ListingOne(was, first, earlier, task, digest, a, stored);
      RegistersExtends(before, stored, first, artifacts);
    }

    // The part of a visit that handles a regular file.
    method VisitFile(name: string, content: Bytes) returns (failure: Option<Error>)
      requires Accounted()
      modifies this`stored, this`artifacts, this`total, this`calls
      ensures failure.None? ==>
                && Accounted() && |artifacts| == |old(artifacts)| + 1 <= MAX_FILES && total == old(total) + |content| <= MAX_TOTAL
                && Listing(artifacts, stored) == Listing(old(artifacts), old(stored)) + multiset{(name, content)}
                && ValidRelative(name) && |content| <= MAX_FILE
      ensures failure.Some? ==> Registered()
      ensures if failure == Some(Io) then faultAt.Some? else failure == Refusal(name, content, |old(artifacts)|, old(total))
    {
      AccountedIsRegistered();
      if |artifacts| >= MAX_FILES {
        return Some(FileCountLimit);
      }
      if |content| > MAX_FILE {
        return Some(FileSizeLimit);
      }
      if !ValidRelative(name) {
        return Some(InvalidName);
      }
      failure := AddFile(name, content);
    }

    // Counts an entry and reads its metadata.
    method Enter() returns (failure: Option<Error>)
      modifies this`visited, this`calls
      ensures visited == old(visited) + 1
      ensures if visited > MAX_ENTRIES then failure == Some(EntryLimit) else failure in {None, Some(Io)}
      ensures failure == Some(Io) ==> faultAt.Some?
    {
      visited := visited + 1;
      if visited > MAX_ENTRIES {
        return Some(EntryLimit);
      }
      var ok := Call();
      return if ok then None else Some(Io);
    }

    lemma ConsistentCopyable()
      requires Consistent()
      ensures Copyable(Done())
    {
    }

    lemma WithinEntries()
      requires Consistent()
      ensures visited <= MAX_ENTRIES && |artifacts| <= MAX_FILES && total <= MAX_TOTAL
    {
    }

    // One entry of a directory.
    method Visit(e: Entry, directory: string) returns (failure: Option<Error>)
      requires Consistent()
      modifies this
      ensures before == old(before)
      ensures failure.None? ==>
                && Consistent() && Done() == Plus(old(Done()), Itself(e, directory)) && visited == old(visited) + 1
                && pending == old(pending) + Pushed(e, directory)
      ensures failure.Some? ==> Registered()
      ensures if failure == Some(Io) then faultAt.Some? else failure == EntryRefusal(e, directory, old(Done()))
    {
      AccountedIsRegistered();
      EntryCounts(Done(), e, directory);
      RefusedIff(Done(), e, directory);
      WithinEntries();
      PushedIs(pending, e, directory);
      hide Accounted, Registered, Listing, ValidRelative, Slashed, Path, Itself, Plus, Copyable, Refusal, Pushed;
      failure := Enter();
      if failure.Some? {
        return;
      }
      match e.node {
        case Link => return Some(SymlinkRejected);
        case Special => return Some(SpecialFileRejected);
        case Dir(entries) =>
          pending := pending + [Directory(Path(directory, e.name), entries)];
        case File(content) =>
          failure := VisitFile(Slashed(Path(directory, e.name)), content);
          if failure.Some? {
            return;
          }
      }
      return None;
    }

    // The entries of one directory; its subdirectories go onto the stack.
    method ReadDirectory(directory: Directory, ghost whole: Tally) returns (failure: Option<Error>)
      requires Consistent()
      requires Plus(Plus(Done(), Contents(directory.entries, directory.path)), Below(pending)) == whole
      modifies this
      ensures before == old(before)
      ensures failure.None? ==>
                && Consistent() && Plus(Done(), Below(pending)) == whole
                && |pending| - visited <= old(|pending| - visited)
      ensures failure.Some? ==> Registered() && (if failure == Some(Io) then faultAt.Some? else !Copyable(whole))
    {
      hide *;
      var entries := directory.entries;
      assert entries[0..] == entries;
      for k := 0 to |entries|
        invariant before == old(before) && Consistent()
        invariant |pending| - visited <= old(|pending| - visited)
        invariant Plus(Plus(Done(), Contents(entries[k..], directory.path)), Below(pending)) == whole
      {
        ContentsSplit(entries, k, directory.path);
        ConsistentCopyable();
        RefusedIff(Done(), entries[k], directory.path);
        EntryMoves(Done(), entries[k], directory.path, Contents(entries[k + 1..], directory.path), pending, whole);
        failure := Visit(entries[k], directory.path);
        if failure.Some? {
          return;
        }
        PushedOne(entries[k], directory.path);
      }
      ContentsEnd(entries, directory.path, Done());
      return None;
    }

    // Empties the stack of directories.
    method ReadAll(ghost whole: Tally) returns (failure: Option<Error>)
      requires Consistent() && Plus(Done(), Below(pending)) == whole
      modifies this
      ensures before == old(before)
      ensures failure.None? ==> Consistent() && Done() == whole
      ensures failure.Some? ==> Registered() && (if failure == Some(Io) then faultAt.Some? else !Copyable(whole))
    {
      hide Accounted, Registered, Listing, Contents, Below, Plus, Copyable;
      while pending != []
        invariant before == old(before) && Consistent() && Plus(Done(), Below(pending)) == whole
        decreases whole.entries - visited + |pending|
      {
        AccountedIsRegistered();
        var directory := pending[|pending|-1];
        BelowPop(pending);
        pending := pending[..|pending|-1];
        var ok := Call();
        if !ok {
          return Some(Io);
        }
        PlusMoves(Done(), Below(pending), Contents(directory.entries, directory.path));
        failure := ReadDirectory(directory, whole);
        if failure.Some? {
          return;
        }
        DoneWithin(Done(), Below(pending));
      }
      BelowNone(Done());
      return None;
    }

    // Lists the regular files below `root` and stores copies of them, or fails and
    // removes what it stored.
    method Run(root: seq<Entry>) returns (r: Result)
      requires Consistent() && Done() == NOTHING && pending == [] && stored == before
      modifies this
      ensures r.Failed? ==> stored == old(stored)
      ensures r.Listed? ==>
                && Copyable(Contents(root, "")) && Listing(r.artifacts, stored) == Contents(root, "").listed
                && |r.artifacts| == Contents(root, "").files
                && Extends(old(stored), stored, first, |r.artifacts|) && Lists(r.artifacts, task, first, digest, stored)
                && Sum(r.artifacts) <= MAX_TOTAL
      ensures faultAt.None? ==> (r.Listed? <==> Copyable(Contents(root, "")))
      ensures r.Listed? || r.Failed?
    {
      ghost var whole := Contents(root, "");
      pending := [Directory("", root)];
      assert pending[..0] == [] && Below(pending) == Plus(NOTHING, whole);
      var failure := ReadAll(whole);
      if failure.None? {
        return Listed(artifacts);
      }
      Discard();
      return Failed(failure.value);
    }

    // The whole of `snapshot`: finds the result directory below the working
    // directory, then copies it.
    method Collect(cwd: seq<Entry>, relative: string) returns (r: Result)
      requires Consistent() && Done() == NOTHING && pending == [] && stored == before
      modifies this
      ensures !r.Listed? ==> stored == old(stored)
      ensures r.InvalidDirectory? <==> !ValidRelative(relative)
      ensures r.DirectoryNotRegular? <==> ValidRelative(relative) && Located(cwd, Components(relative)).None?
      ensures r.Listed? ==>
                && ValidRelative(relative) && Located(cwd, Components(relative)).Some?
                && var tally := Contents(Located(cwd, Components(relative)).value, "");
                   && Copyable(tally) && Listing(r.artifacts, stored) == tally.listed
                   && |r.artifacts| == tally.files && Sum(r.artifacts) <= MAX_TOTAL
                   && Extends(old(stored), stored, first, |r.artifacts|) && Lists(r.artifacts, task, first, digest, stored)
      ensures faultAt.None? && ValidRelative(relative) && Located(cwd, Components(relative)).Some? ==>
                (r.Listed? <==> Copyable(Contents(Located(cwd, Components(relative)).value, "")))
    {
      if !ValidRelative(relative) {
        return InvalidDirectory;
      }
      var parts, source := Components(relative), cwd;
      assert parts[0..] == parts;
      for k := 0 to |parts|
        invariant Located(cwd, parts) == Located(source, parts[k..])
      {
        assert parts[k..][1..] == parts[k + 1..];
        var found := Find(source, parts[k]);
        if found.None? || !found.value.Dir? {
          return DirectoryNotRegular;
        }
        source := found.value.entries;
      }
      hide *;
      LocatedHere(source, parts);
      r := Run(source);
    }

    // Removes the registered files, finished or not.
    method Discard()
      requires Registered()
      modifies this`stored
      ensures stored == before
    {
      for k := 0 to |artifacts|
        invariant forall id :: id in stored <==> id in before || first + k <= id < first + |artifacts|
        invariant forall id | id in before :: id < first && stored[id] == before[id]
      {
        stored := stored - {artifacts[k].id};
      }
      assert stored.Keys == before.Keys;
    }
  }

  lemma PlusMoves(a: Tally, b: Tally, c: Tally)
    ensures Plus(a, Plus(b, c)) == Plus(Plus(a, c), b)
  {
  }

  lemma PlusAgain(a: Tally, b: Tally, c: Tally)
    ensures Plus(a, Plus(b, c)) == Plus(Plus(a, b), c)
  {
  }

  // The tally with one more entry, kind by kind.
  lemma EntryCounts(d: Tally, e: Entry, directory: string)
    ensures var more := Plus(d, Itself(e, directory));
            && more.entries == d.entries + 1
            && match e.node
               case File(content) =>
                 var name := Slashed(Path(directory, e.name));
                 && more.files == d.files + 1 && more.bytes == d.bytes + |content|
                 && more.clean == (d.clean && |content| <= MAX_FILE && ValidRelative(name))
                 && more.listed == d.listed + multiset{(name, content)}
               case Dir(_) => more == d.(entries := d.entries + 1)
               case _ => !more.clean
  {
  }

  lemma BelowPop(stack: seq<Directory>)
    requires stack != []
    ensures var top := stack[|stack|-1]; Below(stack) == Plus(Below(stack[..|stack|-1]), Contents(top.entries, top.path))
  {
  }

  lemma ContentsSplit(entries: seq<Entry>, k: nat, directory: string)
    requires k < |entries|
    ensures Contents(entries[k..], directory) == Plus(Holding(entries[k], directory), Contents(entries[k + 1..], directory))
  {
    assert entries[k..][1..] == entries[k + 1..];
  }

  lemma ContentsEnd(entries: seq<Entry>, directory: string, done: Tally)
    ensures Plus(done, Contents(entries[|entries|..], directory)) == done
  {
  }

  lemma BelowNone(done: Tally)
    ensures Plus(done, Below([])) == done
  {
  }

  lemma DoneWithin(done: Tally, rest: Tally)
    ensures done.entries <= Plus(done, rest).entries
  {
  }

  lemma PushedIs(stack: seq<Directory>, e: Entry, directory: string)
    ensures stack + Pushed(e, directory)
         == if e.node.Dir? then stack + [Directory(Path(directory, e.name), e.node.entries)] else stack
  {
  }

  lemma PushedOne(e: Entry, directory: string)
    ensures |Pushed(e, directory)| <= 1
  {
  }

  lemma DescribesCopy(a: Artifact, digest: Bytes -> string, content: Bytes)
    requires a.size == |content| <= MAX_FILE && a.sha256 == digest(content)
    ensures Describes(a, digest, content)
  {
  }

  lemma RegistersExtends(before: map<int, Bytes>, stored: map<int, Bytes>, first: int, artifacts: seq<Artifact>)
    requires Registers(before, stored, first, artifacts)
    ensures Extends(before, stored, first, |artifacts|)
  {
  }

  lemma BelowPush(stack: seq<Directory>, top: Directory)
    ensures Below(stack + [top]) == Plus(Below(stack), Contents(top.entries, top.path))
  {
    assert (stack + [top])[..|stack|] == stack;
  }

  lemma TooMuchStays(a: Tally, b: Tally)
    requires !Copyable(a)
    ensures !Copyable(Plus(a, b))
  {
  }

  // Why a file is not copied, in the order of the checks.
  function Refusal(name: string, content: Bytes, count: nat, total: nat): Option<Error> {
    if count >= MAX_FILES then Some(FileCountLimit)
    else if |content| > MAX_FILE then Some(FileSizeLimit)
    else if !ValidRelative(name) then Some(InvalidName)
    else if total + |content| > MAX_TOTAL then Some(SizeLimit)
    else None
  }

  // Why an entry is refused after `d` has been handled.
  function EntryRefusal(e: Entry, directory: string, d: Tally): Option<Error> {
    if d.entries >= MAX_ENTRIES then Some(EntryLimit)
    else
      match e.node
      case Link => Some(SymlinkRejected)
      case Special => Some(SpecialFileRejected)
      case Dir(_) => None
      case File(content) => Refusal(Slashed(Path(directory, e.name)), content, d.files, d.bytes)
  }

  // An entry is refused exactly when it is what makes the tree one that cannot be copied.
  lemma RefusedIff(d: Tally, e: Entry, directory: string)
    requires Copyable(d)
    ensures EntryRefusal(e, directory, d).None? <==> Copyable(Plus(d, Itself(e, directory)))
  {
  }

  function Pushed(e: Entry, directory: string): seq<Directory> {
    if e.node.Dir? then [Directory(Path(directory, e.name), e.node.entries)] else []
  }

  // After an entry is handled its part has moved from what is left to what is done,
  // and a subdirectory from the entries to the stack.
  lemma EntryMoves(done: Tally, e: Entry, directory: string, rest: Tally, stack: seq<Directory>, whole: Tally)
    requires Plus(Plus(done, Plus(Holding(e, directory), rest)), Below(stack)) == whole
    ensures Plus(Plus(Plus(done, Itself(e, directory)), rest), Below(stack + Pushed(e, directory))) == whole
    ensures !Copyable(Plus(done, Itself(e, directory))) ==> !Copyable(whole)
  {
    var i, b := Itself(e, directory), Below(stack);
    var now := Plus(done, i);
    if e.node.Dir? {
      var top := Pushed(e, directory)[0];
      var s := Contents(top.entries, top.path);
      BelowPush(stack, top);
      hide Plus, Below, Contents, Itself, Copyable;
      PlusAgain(i, s, rest);
      PlusAgain(done, i, Plus(s, rest));
      PlusMoves(now, s, rest);
      PlusAgain(Plus(now, rest), s, b);
      PlusMoves(Plus(now, rest), b, s);
    } else {
      assert stack + [] == stack;
      hide Plus, Below, Itself, Copyable;
      PlusAgain(done, i, rest);
    }
    hide Plus, Below, Itself, Copyable;
    var later := Below(stack + Pushed(e, directory));
    if !Copyable(now) {
      TooMuchStays(now, rest);
      TooMuchStays(Plus(now, rest), later);
    }
  }

  lemma {:induction false} ListingStays(artifacts: seq<Artifact>, was: map<int, Bytes>, stored: map<int, Bytes>)
    requires forall a | a in artifacts :: a.id in was && a.id in stored && was[a.id] == stored[a.id]
    ensures Listing(artifacts, was) == Listing(artifacts, stored)
  {
    if artifacts != [] {
      ListingStays(artifacts[..|artifacts|-1], was, stored);
    }
  }

  lemma LocatedHere(entries: seq<Entry>, parts: seq<string>)
    ensures Located(entries, parts[|parts|..]) == Some(entries)
  {
  }

  // The controller accepts the list of every successful snapshot, in whatever order
  // it is sent, and every record in it matches the stored file a download will read.
  lemma SnapshotIsCacheable(list: seq<Artifact>, sent: seq<Artifact>, task: int, first: int, digest: Bytes -> string,
                            stored: map<int, Bytes>)
    requires Lists(list, task, first, digest, stored) && |list| <= MAX_FILES && Sum(list) <= MAX_TOTAL
    requires forall content: Bytes :: IsHash(digest(content))
    requires multiset(sent) == multiset(list)
    ensures Cacheable(task, sent)
    ensures forall a | a in sent :: a.id in stored && Describes(a, digest, stored[a.id])
  {
    forall a | a in list
      ensures a.id in stored && Describes(a, digest, stored[a.id]) && Sound(a, task)
    {
      var k :| 0 <= k < |list| && list[k] == a;
      assert IsHash(digest(stored[a.id]));
    }
    CacheableInAnyOrder(task, list, sent);
    forall a | a in sent
      ensures a in list
    {
      assert a in multiset(sent) && a in multiset(list);
    }
  }

  const BLOCK: nat := 65536
}
