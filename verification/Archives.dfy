/**
  A source batch becomes a list of files: nested archives are inspected and
  expanded from a queue, under one budget for all of them.
 */
module Archives {
  import opened Wrappers
  import opened Naming
  import NameAllocation

  /** One record of an archive's listing. The header of the archive itself comes first. */
  datatype Record = Record(name: string, header: bool, encrypted: bool, link: bool, folder: bool, size: Option<nat>)

  /** A file as it was extracted, and what is in it should it be an archive. */
  datatype Entry = Entry(path: string, content: nat)

  /**
    `roomy`: what the listing weighs leaves enough room on the disk. `usable`:
    the tool tests and extracts it, and nothing but regular files comes out.
   */
  datatype Archive = Archive(listing: seq<Record>, packed: nat, roomy: bool, usable: bool, entries: seq<Entry>)

  datatype Source =
    | Directory(name: string, entries: seq<Entry>)
    | Packed(name: string, content: nat)
    | Single(name: string)

  datatype Item = Item(archive: nat, depth: nat, provenance: string)

  datatype File = File(provenance: string, basename: string)

  datatype Error =
    | TooDeep | TooManyMembers | TooLarge | TooCompressed | NoRoom | Unusable
    | UnsafeMember | Encrypted | LinkedMember | BadSize

  const MAX_DEPTH := 16
  const MAX_MEMBERS := 100_000
  const MAX_EXPANDED := 500 * 1024 * 1024 * 1024
  const MAX_RATIO := 1_000

  const ARCHIVE_SUFFIXES: set<string> := {
    ".tar.bz2", ".tar.gz", ".tar.xz", ".tar.zst", ".tbz2", ".tgz", ".txz", ".tzst",
    ".7z", ".bz2", ".gz", ".rar", ".tar", ".xz", ".zip", ".zst"
  }

  // ------------------------------------------------------------------ member names

  /** The pieces of a path between its slashes. */
  function Components(s: string): (parts: seq<string>)
    ensures parts != []
  {
    if s == [] then [[]]
    else
      var before, last := Components(s[..|s| - 1]), s[|s| - 1];
      if last == '/' then before + [[]]
      else before[..|before| - 1] + [before[|before| - 1] + [last]]
  }

  /** Without the empty ones and those that stay where they are. */
  function Proper(parts: seq<string>): (proper: seq<string>)
    ensures forall i :: 0 <= i < |proper| ==> proper[i] in parts && proper[i] !in {"", "."}
  {
    if parts == [] then []
    else
      var before, last := Proper(parts[..|parts| - 1]), parts[|parts| - 1];
      if last == "" || last == "." then before else before + [last]
  }

  function Parts(path: string): seq<string> { Proper(Components(path)) }

  predicate IsLetter(c: char) { 'a' <= c <= 'z' || 'A' <= c <= 'Z' }

  predicate IsUnsafe(name: string) {
    var path := Slashed(name);
    || path == "" || path[0] == '/'
    || (|path| >= 2 && IsLetter(path[0]) && path[1] == ':')
    || ".." in Parts(path)
  }

  /** Where a path leads from a directory, as a file system resolves it. */
  function Resolved(directory: seq<string>, parts: seq<string>): seq<string> {
    if parts == [] then directory
    else
      var before, last := Resolved(directory, parts[..|parts| - 1]), parts[|parts| - 1];
      if last == "" || last == "." then before
      else if last == ".." then (if before == [] then [] else before[..|before| - 1])
      else before + [last]
  }

  lemma {:induction false} WithoutParentsStaysInside(directory: seq<string>, parts: seq<string>)
    requires ".." !in Proper(parts)
    ensures Resolved(directory, parts) == directory + Proper(parts)
  {
    if parts == [] {
      assert directory + [] == directory;
    } else {
      WithoutParentsStaysInside(directory, parts[..|parts| - 1]);
    }
  }

  /** Nothing that passes the check can be written outside the directory it is extracted into. */
  lemma SafeStaysInside(directory: seq<string>, name: string)
    requires !IsUnsafe(name)
    ensures directory <= Resolved(directory, Components(Slashed(name)))
    ensures Resolved(directory, Components(Slashed(name))) == directory + Parts(Slashed(name))
  {
    WithoutParentsStaysInside(directory, Components(Slashed(name)));
  }

  // -------------------------------------------------------------------- inspection

  predicate IsMember(r: Record) { !r.header && r.name != "" }

  /** What a record of the listing is refused for. */
  function Refusal(r: Record): Option<Error> {
    if !IsMember(r) then None
    else if IsUnsafe(r.name) then Some(UnsafeMember)
    else if r.encrypted then Some(Encrypted)
    else if r.link then Some(LinkedMember)
    else if !r.folder && r.size == None then Some(BadSize)
    else None
  }

  predicate IsClean(a: Archive) {
    forall i :: 0 <= i < |a.listing| ==> Refusal(a.listing[i]) == None
  }

  function Members(listing: seq<Record>, n: nat): nat
    requires n <= |listing|
  {
    if n == 0 then 0
    else Members(listing, n - 1) + if IsMember(listing[n - 1]) && !listing[n - 1].folder then 1 else 0
  }

  function Expanded(listing: seq<Record>, n: nat): nat
    requires n <= |listing|
  {
    if n == 0 then 0
    else
      var r := listing[n - 1];
      Expanded(listing, n - 1) + if IsMember(r) && !r.folder && r.size.Some? then r.size.value else 0
  }

  method Inspect(a: Archive) returns (r: Result<(nat, nat), Error>)
    ensures r.Ok? <==> IsClean(a)
    ensures r.Ok? ==> r.value == (Members(a.listing, |a.listing|), Expanded(a.listing, |a.listing|))
    ensures r.Err? ==> exists i :: 0 <= i < |a.listing| && Refusal(a.listing[i]) == Some(r.error)
                                   && forall j :: 0 <= j < i ==> Refusal(a.listing[j]) == None
  {
    hide IsUnsafe;
    var members, expanded, n := 0, 0, 0;
    while n < |a.listing|
      invariant n <= |a.listing| && members == Members(a.listing, n) && expanded == Expanded(a.listing, n)
      invariant forall j :: 0 <= j < n ==> Refusal(a.listing[j]) == None
    {
      var record := a.listing[n];
      var refusal := Refusal(record);
      if refusal.Some? {
        return Err(refusal.value);
      }
      if IsMember(record) && !record.folder {
        members, expanded := members + 1, expanded + record.size.value;
      }
      n := n + 1;
    }
    r := Ok((members, expanded));
  }

  /** Nothing is extracted that was not listed. */
  ghost predicate Listed(contents: nat -> Archive) {
    forall a :: IsListed(contents, a)
  }

  predicate IsListed(contents: nat -> Archive, a: nat) {
    |contents(a).entries| <= Members(contents(a).listing, |contents(a).listing|)
  }

  class Budget {
    var members: nat
    var expanded: nat

    constructor ()
      ensures members == 0 && expanded == 0
    {
      members, expanded := 0, 0;
    }

    method Add(listed: nat, weight: nat, size: nat) returns (error: Option<Error>)
      modifies this
      ensures members == old(members) + listed && expanded == old(expanded) + weight
      ensures error in {None, Some(TooManyMembers), Some(TooLarge), Some(TooCompressed)}
      ensures error == Some(TooManyMembers) <==> members > 100_000
      ensures error == Some(TooLarge) <==> members <= 100_000 && expanded > 536_870_912_000
      ensures error == None <==>
              members <= 100_000 && expanded <= 536_870_912_000
              && weight <= 1000 * (if size == 0 then 1 else size)
    {
      members := members + listed;
      expanded := expanded + weight;
      if members > MAX_MEMBERS {
        return Some(TooManyMembers);
      }
      if expanded > MAX_EXPANDED {
        return Some(TooLarge);
      }
      var packed := if size == 0 then 1 else size;
      error := if weight > MAX_RATIO * packed then Some(TooCompressed) else None;
    }
  }

  // ------------------------------------------------------- what must be collected

  predicate EndsWith(s: string, suffix: string) {
    |suffix| <= |s| && s[|s| - |suffix|..] == suffix
  }

  predicate IsArchiveName(t: Text, name: string) {
    exists suffix :: suffix in ARCHIVE_SUFFIXES && EndsWith(t.fold(name), suffix)
  }

  /** What a desktop leaves behind. */
  predicate IsMetadata(t: Text, path: string) {
    exists part :: part in Parts(path) && (t.fold(part) == "__macosx" || "._" <= part)
  }

  predicate IsNested(t: Text, e: Entry) {
    !IsMetadata(t, e.path) && IsArchiveName(t, AfterLastSlash(e.path))
  }

  predicate IsFile(t: Text, e: Entry) {
    !IsMetadata(t, e.path) && !IsArchiveName(t, AfterLastSlash(e.path))
  }

  /** The archives among the first `n` entries, known by where they were found. */
  function NestedIn(t: Text, prefix: string, depth: nat, entries: seq<Entry>, n: nat): (items: seq<Item>)
    requires n <= |entries|
    ensures |items| <= n
  {
    if n == 0 then []
    else
      var e := entries[n - 1];
      NestedIn(t, prefix, depth, entries, n - 1) + if IsNested(t, e) then [Item(e.content, depth, prefix + e.path)] else []
  }

  /** The files among them. */
  function FilesIn(t: Text, prefix: string, entries: seq<Entry>, n: nat): (files: seq<File>)
    requires n <= |entries|
    ensures |files| <= n
  {
    if n == 0 then []
    else
      var e := entries[n - 1];
      FilesIn(t, prefix, entries, n - 1) + if IsFile(t, e) then [File(prefix + e.path, AfterLastSlash(e.path))] else []
  }

  function Inside(provenance: string): string { provenance + "!/" }

  function Children(t: Text, contents: nat -> Archive, items: seq<Item>): seq<Item> {
    if items == [] then []
    else
      var last := items[|items| - 1];
      var entries := contents(last.archive).entries;
      Children(t, contents, items[..|items| - 1]) + NestedIn(t, Inside(last.provenance), last.depth + 1, entries, |entries|)
  }

  function Files(t: Text, contents: nat -> Archive, items: seq<Item>): seq<File> {
    if items == [] then []
    else
      var last := items[|items| - 1];
      var entries := contents(last.archive).entries;
      Files(t, contents, items[..|items| - 1]) + FilesIn(t, Inside(last.provenance), entries, |entries|)
  }

  function Start(t: Text, source: Source): seq<Item> {
    match source
    case Directory(name, entries) => NestedIn(t, name + "/", 1, entries, |entries|)
    case Packed(name, content) => [Item(content, 1, name)]
    case Single(name) => []
  }

  function Loose(t: Text, source: Source): seq<File> {
    match source
    case Directory(name, entries) => FilesIn(t, name + "/", entries, |entries|)
    case Packed(name, content) => []
    case Single(name) => [File(name, name)]
  }

  /** Leaves are numbered as they are found, and are what names are allocated for. */
  function Leaves(files: seq<File>): (leaves: seq<Candidate>)
    ensures |leaves| == |files|
  {
    seq(|files|, i requires 0 <= i < |files| => Candidate(Decimal(i + 1), files[i].provenance, files[i].basename))
  }

  /** All archives that were opened: the first ones, and every archive inside one of them. */
  ghost predicate IsClosure(t: Text, contents: nat -> Archive, source: Source, archives: seq<Item>) {
    && archives == Start(t, source) + Children(t, contents, archives)
    && forall i :: 0 <= i < |archives| ==> IsAccepted(contents, archives[i])
  }

  predicate IsAccepted(contents: nat -> Archive, item: Item) {
    var a := contents(item.archive);
    item.depth <= MAX_DEPTH && IsClean(a) && a.roomy && a.usable
  }

  /** What archives weigh together. */
  function TotalMembers(contents: nat -> Archive, items: seq<Item>): nat {
    if items == [] then 0
    else
      var listing := contents(items[|items| - 1].archive).listing;
      TotalMembers(contents, items[..|items| - 1]) + Members(listing, |listing|)
  }

  function TotalExpanded(contents: nat -> Archive, items: seq<Item>): nat {
    if items == [] then 0
    else
      var listing := contents(items[|items| - 1].archive).listing;
      TotalExpanded(contents, items[..|items| - 1]) + Expanded(listing, |listing|)
  }

  /** After the archives before it, this one is refused or goes beyond a limit. */
  predicate GoesTooFar(contents: nat -> Archive, before: seq<Item>, item: Item) {
    var a := contents(item.archive);
    || !IsAccepted(contents, item)
    || TotalMembers(contents, before) + Members(a.listing, |a.listing|) > MAX_MEMBERS
    || TotalExpanded(contents, before) + Expanded(a.listing, |a.listing|) > MAX_EXPANDED
    || Expanded(a.listing, |a.listing|) > MAX_RATIO * (if a.packed == 0 then 1 else a.packed)
  }

  lemma GoesTooFarIff(contents: nat -> Archive, before: seq<Item>, item: Item)
    ensures var a := contents(item.archive);
            !GoesTooFar(contents, before, item) <==>
              && item.depth <= 16 && IsClean(a) && a.roomy && a.usable
              && TotalMembers(contents, before) + Members(a.listing, |a.listing|) <= 100_000
              && TotalExpanded(contents, before) + Expanded(a.listing, |a.listing|) <= 536_870_912_000
              && Expanded(a.listing, |a.listing|) <= 1000 * (if a.packed == 0 then 1 else a.packed)
    ensures !GoesTooFar(contents, before, item) ==> IsAccepted(contents, item)
  {
    hide IsClean;
  }

  /** Leaves are put in order without regard to case, then with it. */
  function ByFold(t: Text): Text { t.(nfc := s => s) }

  // -------------------------------------------------------------------- the queue

  method Extract(budget: Budget, depth: nat, a: Archive) returns (error: Option<Error>)
    modifies budget
    ensures error == None <==>
              && depth <= 16 && IsClean(a) && a.roomy && a.usable
              && old(budget.members) + Members(a.listing, |a.listing|) <= 100_000
              && old(budget.expanded) + Expanded(a.listing, |a.listing|) <= 536_870_912_000
              && Expanded(a.listing, |a.listing|) <= 1000 * (if a.packed == 0 then 1 else a.packed)
    ensures error == Some(TooDeep) <==> depth > 16
    ensures error == None ==>
              && budget.members == old(budget.members) + Members(a.listing, |a.listing|)
              && budget.expanded == old(budget.expanded) + Expanded(a.listing, |a.listing|)
  {
    if depth > MAX_DEPTH {
      return Some(TooDeep);
    }
    var inspected := Inspect(a);
    if inspected.Err? {
      return Some(inspected.error);
    }
    error := budget.Add(inspected.value.0, inspected.value.1, a.packed);
    if error.Some? {
      return error;
    }
    if !a.roomy {
      return Some(NoRoom);
    }
    error := if a.usable then None else Some(Unusable);
  }

  /**
    Every archive inside an archive is opened, and every file in any of them
    becomes one leaf with its own key, all of them in order. The queue runs empty
    even for an archive that contains itself: what is queued is paid for from the
    budget.
   */
  method CollectLeaves(t: Text, contents: nat -> Archive, source: Source)
    returns (r: Result<seq<Candidate>, Error>, visited: seq<Item>)
    requires Listed(contents)
    ensures r.Ok? ==>
      && IsClosure(t, contents, source, visited)
      && r.value == Sorted(ByFold(t), Leaves(Loose(t, source) + Files(t, contents, visited)))
      && |visited| <= |Start(t, source)| + 100_000
    ensures r.Err? ==> exists item ::
      item in Start(t, source) + Children(t, contents, visited) && GoesTooFar(contents, visited, item)
  {
    hide Children, Files, IsMetadata, IsArchiveName, IsClean, Start, Loose, NestedIn, FilesIn, Sorted, Leaves, Inside, IsNested, IsFile, Members, Expanded, GoesTooFar, IsAccepted;
    var budget := new Budget();
    var queue, files := Begin(t, source);
    visited := [];
    NothingFound(t, contents);
    assert files == Loose(t, source) + [];
    while queue != []
      invariant fresh(budget) && budget.members <= MAX_MEMBERS
      invariant visited + queue == Start(t, source) + Children(t, contents, visited)
      invariant files == Loose(t, source) + Files(t, contents, visited)
      invariant forall i :: 0 <= i < |visited| ==> IsAccepted(contents, visited[i])
      invariant |Children(t, contents, visited)| <= budget.members
      invariant budget.members == TotalMembers(contents, visited) && budget.expanded == TotalExpanded(contents, visited)
      decreases MAX_MEMBERS - budget.members + |queue|
    {
      var item := queue[0];
      var a := contents(item.archive);
      assert IsListed(contents, item.archive);
      var error := Extract(budget, item.depth, a);
      GoesTooFarIff(contents, visited, item);
      if error.Some? {
        assert item in visited + queue;
        return Err(error.value), visited;
      }
      TotalsNext(contents, visited, item);
      var nested, found := Sift(t, Inside(item.provenance), item.depth + 1, a.entries);
      FoundNext(t, contents, visited, item);
      Requeued(visited, queue, Start(t, source), Children(t, contents, visited), nested);
      queue := queue[1..] + nested;
      files := files + found;
      visited := visited + [item];
    }
    assert visited + [] == visited;
    r := Ok(Sorted(ByFold(t), Leaves(files)));
  }

  method Begin(t: Text, source: Source) returns (queue: seq<Item>, files: seq<File>)
    ensures queue == Start(t, source) && files == Loose(t, source)
  {
    match source {
      case Directory(name, entries) => queue, files := Sift(t, name + "/", 1, entries);
      case Packed(name, content) => queue, files := [Item(content, 1, name)], [];
      case Single(name) => queue, files := [], [File(name, name)];
    }
  }

  lemma TotalsNext(contents: nat -> Archive, visited: seq<Item>, item: Item)
    ensures var listing := contents(item.archive).listing;
            && TotalMembers(contents, visited + [item]) == TotalMembers(contents, visited) + Members(listing, |listing|)
            && TotalExpanded(contents, visited + [item]) == TotalExpanded(contents, visited) + Expanded(listing, |listing|)
  {
    hide Members, Expanded;
    assert (visited + [item])[..|visited|] == visited;
  }

  lemma NothingFound(t: Text, contents: nat -> Archive)
    ensures Children(t, contents, []) == [] && Files(t, contents, []) == []
  {
  }

  lemma FoundNext(t: Text, contents: nat -> Archive, visited: seq<Item>, item: Item)
    ensures var entries := contents(item.archive).entries;
            && Children(t, contents, visited + [item]) ==
                 Children(t, contents, visited) + NestedIn(t, Inside(item.provenance), item.depth + 1, entries, |entries|)
            && Files(t, contents, visited + [item]) ==
                 Files(t, contents, visited) + FilesIn(t, Inside(item.provenance), entries, |entries|)
  {
    hide NestedIn, FilesIn, Inside;
    assert (visited + [item])[..|visited|] == visited;
  }

  lemma Requeued(visited: seq<Item>, queue: seq<Item>, start: seq<Item>, children: seq<Item>, nested: seq<Item>)
    requires queue != [] && visited + queue == start + children
    ensures (visited + [queue[0]]) + (queue[1..] + nested) == start + (children + nested)
  {
    assert queue == [queue[0]] + queue[1..];
    assert (visited + [queue[0]]) + (queue[1..] + nested) == (visited + queue) + nested;
  }

  method Sift(t: Text, prefix: string, depth: nat, entries: seq<Entry>) returns (nested: seq<Item>, files: seq<File>)
    ensures nested == NestedIn(t, prefix, depth, entries, |entries|) && files == FilesIn(t, prefix, entries, |entries|)
    ensures |nested| + |files| <= |entries|
  {
    hide IsMetadata, IsArchiveName, AfterLastSlash;
    nested, files := [], [];
    var n := 0;
    while n < |entries|
      invariant n <= |entries| && |nested| + |files| <= n
      invariant nested == NestedIn(t, prefix, depth, entries, n) && files == FilesIn(t, prefix, entries, n)
    {
      var e := entries[n];
      if !IsMetadata(t, e.path) {
        var name := AfterLastSlash(e.path);
        if IsArchiveName(t, name) {
          nested := nested + [Item(e.content, depth, prefix + e.path)];
        } else {
          files := files + [File(prefix + e.path, name)];
        }
      }
      n := n + 1;
    }
  }

  // ---------------------------------------------------------------------- theorems

  lemma {:induction false} NestedIsThere(t: Text, prefix: string, depth: nat, entries: seq<Entry>, n: nat, k: nat)
    requires k < n <= |entries| && IsNested(t, entries[k])
    ensures Item(entries[k].content, depth, prefix + entries[k].path) in NestedIn(t, prefix, depth, entries, n)
  {
    hide IsNested;
    if k < n - 1 {
      NestedIsThere(t, prefix, depth, entries, n - 1, k);
    }
  }

  lemma {:induction false} ChildIsThere(t: Text, contents: nat -> Archive, items: seq<Item>, i: nat, child: Item)
    requires i < |items|
    requires var entries := contents(items[i].archive).entries;
             child in NestedIn(t, Inside(items[i].provenance), items[i].depth + 1, entries, |entries|)
    ensures child in Children(t, contents, items)
  {
    hide NestedIn, Inside;
    if i < |items| - 1 {
      ChildIsThere(t, contents, items[..|items| - 1], i, child);
    }
  }

  /** An archive that contains itself can never be collected completely. */
  lemma {:induction false} SelfContainingIsRefused(t: Text, contents: nat -> Archive, source: Source, items: seq<Item>, i: nat, k: nat)
    requires IsClosure(t, contents, source, items) && i < |items|
    requires var entries := contents(items[i].archive).entries;
             k < |entries| && entries[k].content == items[i].archive && IsNested(t, entries[k])
    ensures false
    decreases MAX_DEPTH - items[i].depth
  {
    hide IsNested, IsClean;
    var item := items[i];
    var entries := contents(item.archive).entries;
    assert IsAccepted(contents, item);
    var child := Item(item.archive, item.depth + 1, Inside(item.provenance) + entries[k].path);
    NestedIsThere(t, Inside(item.provenance), item.depth + 1, entries, |entries|, k);
    ChildIsThere(t, contents, items, i, child);
    assert child in items;
    var j :| 0 <= j < |items| && items[j] == child;
    assert IsAccepted(contents, child);
    SelfContainingIsRefused(t, contents, source, items, j, k);
  }

  /** No member of an archive that was opened leads out of the directory it is extracted into. */
  lemma OpenedStaysInside(t: Text, contents: nat -> Archive, source: Source, items: seq<Item>, i: nat, k: nat, directory: seq<string>)
    requires IsClosure(t, contents, source, items) && i < |items|
    requires var listing := contents(items[i].archive).listing; k < |listing| && IsMember(listing[k])
    ensures directory <= Resolved(directory, Components(Slashed(contents(items[i].archive).listing[k].name)))
  {
    hide IsUnsafe, Components, Slashed, Resolved;
    var a := contents(items[i].archive);
    assert IsAccepted(contents, items[i]);
    assert Refusal(a.listing[k]) == None;
    SafeStaysInside(directory, a.listing[k].name);
  }

  /** Every leaf has a key of its own, so the allocation keeps their names apart. */
  lemma LeavesAreKeyed(t: Text, files: seq<File>)
    ensures NameAllocation.KeysDiffer(Leaves(files))
  {
    var leaves := Leaves(files);
    forall i, j | 0 <= i < j < |leaves| ensures leaves[i].key != leaves[j].key {
      if leaves[i].key == leaves[j].key {
        DecimalTells(i + 1, j + 1);
      }
    }
  }

  /** From the source to the flat result: two files of a batch never get names that collide. */
  lemma CollectedNamesDiffer(t: Text, files: seq<File>, a: Candidate, b: Candidate)
    requires NumbersTell(t)
    requires var leaves := Sorted(ByFold(t), Leaves(files)); a in leaves && b in leaves && a.key != b.key
    ensures var names := AllocateNames(t, Sorted(ByFold(t), Leaves(files)));
            && a.key in names && b.key in names && Key(t, names[a.key]) != Key(t, names[b.key])
  {
    LeavesAreKeyed(t, files);
    NameAllocation.SortedKeepsKeys(ByFold(t), Leaves(files));
    NameAllocation.NamesCollideNever(t, Sorted(ByFold(t), Leaves(files)), a, b);
  }

  // ------------------------------------------------------------ paths and their parts

  /** A name between two slashes that stays where it is put. */
  predicate IsPart(part: string) { part != "" && part != "." && '/' !in part }

  predicate AreParts(parts: seq<string>) {
    forall i :: 0 <= i < |parts| ==> IsPart(parts[i])
  }

  function Joined(parts: seq<string>): string {
    if parts == [] then ""
    else if |parts| == 1 then parts[0]
    else Joined(parts[..|parts| - 1]) + "/" + parts[|parts| - 1]
  }

  lemma {:induction false} ComponentsEnd(path: string, part: string)
    requires '/' !in part
    ensures Components(path + "/" + part) == Components(path) + [part]
  {
    if part == "" {
      assert (path + "/" + part)[..|path + "/" + part| - 1] == path;
    } else {
      var n := |part| - 1;
      ComponentsEnd(path, part[..n]);
      assert (path + "/" + part)[..|path + "/" + part| - 1] == path + "/" + part[..n];
      assert part[..n] + [part[n]] == part;
    }
  }

  lemma {:induction false} OneComponent(part: string)
    requires '/' !in part
    ensures Components(part) == [part]
  {
    if part != "" {
      OneComponent(part[..|part| - 1]);
      assert part[..|part| - 1] + [part[|part| - 1]] == part;
    }
  }

  lemma {:induction false} PartsAreProper(parts: seq<string>)
    requires AreParts(parts)
    ensures Proper(parts) == parts
  {
    if parts != [] {
      var n := |parts| - 1;
      PartsAreProper(parts[..n]);
      assert IsPart(parts[n]);
      assert parts == parts[..n] + [parts[n]];
    }
  }

  lemma {:induction false} ComponentsOfJoined(parts: seq<string>)
    requires parts != [] && AreParts(parts)
    ensures Components(Joined(parts)) == parts
  {
    var n := |parts| - 1;
    assert IsPart(parts[n]) && parts == parts[..n] + [parts[n]];
    if n == 0 {
      OneComponent(parts[0]);
    } else {
      ComponentsOfJoined(parts[..n]);
      ComponentsEnd(Joined(parts[..n]), parts[n]);
    }
  }

  /** Taking a path apart undoes putting it together. */
  lemma PartsOfJoined(parts: seq<string>)
    requires parts != [] && AreParts(parts)
    ensures Components(Joined(parts)) == parts && Parts(Joined(parts)) == parts
  {
    ComponentsOfJoined(parts);
    PartsAreProper(parts);
  }

  /** The name of a file is the last part of its path. */
  lemma LastOfJoined(parts: seq<string>)
    requires parts != [] && AreParts(parts)
    ensures AfterLastSlash(Joined(parts)) == parts[|parts| - 1]
  {
    assert IsPart(parts[|parts| - 1]);
    if |parts| == 1 {
      NoSlashToCut(parts[0]);
    } else {
      LastOfPath(Joined(parts[..|parts| - 1]), parts[|parts| - 1]);
    }
  }

  lemma {:induction false} JoinedHasNo(parts: seq<string>, c: char)
    requires c != '/' && forall i :: 0 <= i < |parts| ==> c !in parts[i]
    ensures c !in Joined(parts)
  {
    if |parts| > 1 {
      JoinedHasNo(parts[..|parts| - 1], c);
    }
  }

  lemma {:induction false} JoinedBegins(parts: seq<string>)
    requires parts != [] && AreParts(parts)
    ensures Joined(parts) != "" && Joined(parts)[0] != '/'
  {
    assert IsPart(parts[0]);
    if |parts| > 1 {
      JoinedBegins(parts[..|parts| - 1]);
    }
  }

  /** An ordinary relative path is refused exactly for a step upwards or a drive letter; an absolute one always. */
  lemma UnsafeIff(parts: seq<string>)
    requires parts != [] && AreParts(parts) && forall i :: 0 <= i < |parts| ==> '\\' !in parts[i]
    ensures var path := Joined(parts);
            && (IsUnsafe(path) <==>
                  ".." in parts || (|path| >= 2 && ('a' <= path[0] <= 'z' || 'A' <= path[0] <= 'Z') && path[1] == ':'))
            && IsUnsafe("/" + path) && IsUnsafe("\\" + path) && IsUnsafe("")
  {
    var path := Joined(parts);
    PartsOfJoined(parts);
    JoinedBegins(parts);
    JoinedHasNo(parts, '\\');
    assert Slashed(path) == path;
    assert Slashed("/" + path)[0] == '/' && Slashed("\\" + path)[0] == '/';
  }

  /** A listing passes exactly when every member it names is safe, plain, and of known size if it is a file. */
  lemma CleanIff(a: Archive)
    ensures IsClean(a) <==>
            forall i :: 0 <= i < |a.listing| && !a.listing[i].header && a.listing[i].name != "" ==>
              && !IsUnsafe(a.listing[i].name) && !a.listing[i].encrypted && !a.listing[i].link
              && (a.listing[i].folder || a.listing[i].size.Some?)
  {
    hide IsUnsafe;
    forall i | 0 <= i < |a.listing|
      ensures Refusal(a.listing[i]) == None <==>
              (!a.listing[i].header && a.listing[i].name != "" ==>
                && !IsUnsafe(a.listing[i].name) && !a.listing[i].encrypted && !a.listing[i].link
                && (a.listing[i].folder || a.listing[i].size.Some?))
    {
    }
  }

  // ----------------------------------------------------------- what becomes a leaf

  /** Archives are told by the end of their name, in any case. */
  lemma ArchiveNameIff(t: Text, name: string)
    ensures IsArchiveName(t, name) <==>
            exists stem, suffix ::
              suffix in {".tar.bz2", ".tar.gz", ".tar.xz", ".tar.zst", ".tbz2", ".tgz", ".txz", ".tzst",
                         ".7z", ".bz2", ".gz", ".rar", ".tar", ".xz", ".zip", ".zst"}
              && t.fold(name) == stem + suffix
  {
    if IsArchiveName(t, name) {
      var suffix :| suffix in ARCHIVE_SUFFIXES && EndsWith(t.fold(name), suffix);
      var folded := t.fold(name);
      assert folded == folded[..|folded| - |suffix|] + suffix;
    }
    forall stem: string, suffix: string | suffix in ARCHIVE_SUFFIXES && t.fold(name) == stem + suffix
      ensures IsArchiveName(t, name)
    {
      assert EndsWith(t.fold(name), suffix);
    }
  }

  /** Desktop metadata is what lies in `__MACOSX` or has a part that begins with `._`. */
  lemma MetadataIff(t: Text, parts: seq<string>)
    requires parts != [] && AreParts(parts)
    ensures IsMetadata(t, Joined(parts)) <==>
            exists i :: 0 <= i < |parts| && (t.fold(parts[i]) == "__macosx" || (|parts[i]| >= 2 && parts[i][0] == '.' && parts[i][1] == '_'))
  {
    PartsOfJoined(parts);
    forall i | 0 <= i < |parts|
      ensures "._" <= parts[i] <==> |parts[i]| >= 2 && parts[i][0] == '.' && parts[i][1] == '_'
    {
    }
    if IsMetadata(t, Joined(parts)) {
      var part :| part in parts && (t.fold(part) == "__macosx" || "._" <= part);
      var i :| 0 <= i < |parts| && parts[i] == part;
    }
    forall i | 0 <= i < |parts| && (t.fold(parts[i]) == "__macosx" || "._" <= parts[i])
      ensures IsMetadata(t, Joined(parts))
    {
      assert parts[i] in Parts(Joined(parts));
    }
  }

  /** Entry `k` is neither metadata nor an archive, and `f` is what it is known as. */
  predicate IsFoundAt(t: Text, prefix: string, entries: seq<Entry>, k: nat, f: File)
    requires k < |entries|
  {
    && !IsMetadata(t, entries[k].path) && !IsArchiveName(t, AfterLastSlash(entries[k].path))
    && f == File(prefix + entries[k].path, AfterLastSlash(entries[k].path))
  }

  predicate IsNestedAt(t: Text, prefix: string, depth: nat, entries: seq<Entry>, k: nat, item: Item)
    requires k < |entries|
  {
    && !IsMetadata(t, entries[k].path) && IsArchiveName(t, AfterLastSlash(entries[k].path))
    && item == Item(entries[k].content, depth, prefix + entries[k].path)
  }

  predicate IsNestedIn(t: Text, prefix: string, depth: nat, entries: seq<Entry>, item: Item) {
    exists k :: 0 <= k < |entries| && IsNestedAt(t, prefix, depth, entries, k, item)
  }

  /** Every file that is neither becomes a leaf, every archive is opened, and nothing else. */
  lemma {:induction false} FoundIff(t: Text, prefix: string, depth: nat, entries: seq<Entry>, n: nat, f: File, item: Item)
    requires n <= |entries|
    ensures f in FilesIn(t, prefix, entries, n) <==> exists k :: 0 <= k < n && IsFoundAt(t, prefix, entries, k, f)
    ensures item in NestedIn(t, prefix, depth, entries, n) <==> exists k :: 0 <= k < n && IsNestedAt(t, prefix, depth, entries, k, item)
  {
    hide IsMetadata, IsArchiveName, AfterLastSlash;
    if n > 0 {
      FoundIff(t, prefix, depth, entries, n - 1, f, item);
      assert f in FilesIn(t, prefix, entries, n) <==> f in FilesIn(t, prefix, entries, n - 1) || IsFoundAt(t, prefix, entries, n - 1, f);
      assert item in NestedIn(t, prefix, depth, entries, n) <==>
        item in NestedIn(t, prefix, depth, entries, n - 1) || IsNestedAt(t, prefix, depth, entries, n - 1, item);
    }
  }

  predicate CameFrom(t: Text, contents: nat -> Archive, items: seq<Item>, i: nat, f: File)
    requires i < |items|
  {
    var entries := contents(items[i].archive).entries;
    exists k :: 0 <= k < |entries| && IsFoundAt(t, items[i].provenance + "!/", entries, k, f)
  }

  /** The leaves of the opened archives are exactly their ordinary files. */
  lemma {:induction false} LeafIff(t: Text, contents: nat -> Archive, items: seq<Item>, f: File)
    ensures f in Files(t, contents, items) <==> exists i :: 0 <= i < |items| && CameFrom(t, contents, items, i, f)
  {
    hide IsFoundAt, FilesIn;
    if items != [] {
      var n := |items| - 1;
      var entries := contents(items[n].archive).entries;
      LeafIff(t, contents, items[..n], f);
      FoundIff(t, Inside(items[n].provenance), 0, entries, |entries|, f, items[n]);
      assert CameFrom(t, contents, items, n, f) <==> f in FilesIn(t, Inside(items[n].provenance), entries, |entries|);
      forall i | 0 <= i < n ensures CameFrom(t, contents, items[..n], i, f) <==> CameFrom(t, contents, items, i, f) {
      }
      if f in Files(t, contents, items[..n]) {
        var i :| 0 <= i < n && CameFrom(t, contents, items[..n], i, f);
        assert CameFrom(t, contents, items, i, f);
      }
    }
  }

  predicate OpensIn(t: Text, contents: nat -> Archive, items: seq<Item>, i: nat, item: Item)
    requires i < |items|
  {
    var entries := contents(items[i].archive).entries;
    IsNestedIn(t, items[i].provenance + "!/", items[i].depth + 1, entries, item)
  }

  /** Whatever is an archive inside an opened one is opened too, one level deeper. */
  lemma {:induction false} ChildIff(t: Text, contents: nat -> Archive, items: seq<Item>, item: Item)
    ensures item in Children(t, contents, items) <==> exists i :: 0 <= i < |items| && OpensIn(t, contents, items, i, item)
  {
    hide IsNestedAt, NestedIn;
    if items != [] {
      var n := |items| - 1;
      var entries := contents(items[n].archive).entries;
      ChildIff(t, contents, items[..n], item);
      FoundIff(t, Inside(items[n].provenance), items[n].depth + 1, entries, |entries|, File("", ""), item);
      assert OpensIn(t, contents, items, n, item) <==>
             item in NestedIn(t, Inside(items[n].provenance), items[n].depth + 1, entries, |entries|);
      forall i | 0 <= i < n ensures OpensIn(t, contents, items[..n], i, item) <==> OpensIn(t, contents, items, i, item) {
      }
      if item in Children(t, contents, items[..n]) {
        var i :| 0 <= i < n && OpensIn(t, contents, items[..n], i, item);
        assert OpensIn(t, contents, items, i, item);
      }
    }
  }

  /** Where it all begins: with a directory's files and archives, with an archive, or with one file. */
  lemma BeginsWith(t: Text, name: string, content: nat, entries: seq<Entry>, f: File, item: Item)
    ensures f in Loose(t, Directory(name, entries)) <==> exists k :: 0 <= k < |entries| && IsFoundAt(t, name + "/", entries, k, f)
    ensures item in Start(t, Directory(name, entries)) <==> exists k :: 0 <= k < |entries| && IsNestedAt(t, name + "/", 1, entries, k, item)
    ensures Start(t, Packed(name, content)) == [Item(content, 1, name)] && Loose(t, Packed(name, content)) == []
    ensures Start(t, Single(name)) == [] && Loose(t, Single(name)) == [File(name, name)]
  {
    FoundIff(t, name + "/", 1, entries, |entries|, f, item);
  }

  /** The files of a listing. */
  ghost function Charged(listing: seq<Record>, n: nat): set<nat>
    requires n <= |listing|
  {
    set i: nat | i < n && !listing[i].header && listing[i].name != "" && !listing[i].folder
  }

  /** The budget is charged for them, and for nothing else in it. */
  lemma {:induction false} MembersAreCounted(listing: seq<Record>, n: nat)
    requires n <= |listing|
    ensures Members(listing, n) == |Charged(listing, n)|
  {
    if n == 0 {
      assert Charged(listing, 0) == {};
    } else {
      MembersAreCounted(listing, n - 1);
      var r := listing[n - 1];
      var more: set<nat> := if !r.header && r.name != "" && !r.folder then {n - 1} else {};
      assert Charged(listing, n) == Charged(listing, n - 1) + more;
      assert Charged(listing, n - 1) !! more;
    }
  }

  /** Each of them weighs what it says; headers, folders and nameless records weigh nothing. */
  lemma {:induction false} ExpandedFollows(listing: seq<Record>, i: nat, size: nat, n: nat)
    requires n <= |listing| && i < |listing| && listing[i].size.Some?
    ensures Expanded(listing[i := listing[i].(size := Some(size))], n) ==
            Expanded(listing, n) + if i < n && !listing[i].header && listing[i].name != "" && !listing[i].folder
                                   then size - listing[i].size.value else 0
  {
    if n > 0 {
      ExpandedFollows(listing, i, size, n - 1);
    }
  }

  lemma {:induction false} NothingWeighsNothing(listing: seq<Record>, n: nat)
    requires n <= |listing|
    requires forall i :: 0 <= i < n ==> listing[i].header || listing[i].name == "" || listing[i].folder || listing[i].size == Some(0)
    ensures Expanded(listing, n) == 0
  {
    if n > 0 {
      NothingWeighsNothing(listing, n - 1);
    }
  }
}
