/** Paths for the leaves of nested directories and archives: every level's names are allocated together. */
module TreeNaming {
  import opened Naming
  import opened NameAllocation

  datatype Segment = Segment(key: string, name: string, archive: bool)

  datatype Leaf = Leaf(key: string, provenance: string, basename: string, directories: seq<Segment>)

  datatype Node = Node(directories: seq<Directory>, files: seq<Leaf>)

  datatype Directory = Directory(segment: Segment, child: Node)

  const EMPTY := Node([], [])

  // ------------------------------------------------------------ building a tree

  predicate HasDirectory(node: Node, key: string) {
    exists i :: 0 <= i < |node.directories| && node.directories[i].segment.key == key
  }

  function IndexOf(directories: seq<Directory>, key: string): (i: nat)
    ensures i <= |directories|
    ensures i < |directories| ==> directories[i].segment.key == key
    ensures forall j :: 0 <= j < i ==> directories[j].segment.key != key
  {
    if directories == [] || directories[0].segment.key == key then 0 else 1 + IndexOf(directories[1..], key)
  }

  function Insert(node: Node, leaf: Leaf, depth: nat): Node
    requires depth <= |leaf.directories|
    decreases |leaf.directories| - depth
  {
    if depth == |leaf.directories| then node.(files := node.files + [leaf])
    else
      var segment := leaf.directories[depth];
      var i := IndexOf(node.directories, segment.key);
      if i == |node.directories|
      then node.(directories := node.directories + [Directory(segment, Insert(EMPTY, leaf, depth + 1))])
      else
        var d := node.directories[i];
        node.(directories := node.directories[i := d.(child := Insert(d.child, leaf, depth + 1))])
  }

  function Built(leaves: seq<Leaf>): Node {
    if leaves == [] then EMPTY else Insert(Built(leaves[..|leaves| - 1]), leaves[|leaves| - 1], 0)
  }

  /** The keys of a leaf's directories, from the outside in. */
  function Chain(leaf: Leaf, depth: nat): (chain: seq<string>)
    requires depth <= |leaf.directories|
    ensures |chain| == |leaf.directories| - depth
    ensures forall i :: 0 <= i < |chain| ==> chain[i] == leaf.directories[depth + i].key
  {
    seq(|leaf.directories| - depth, i requires 0 <= i < |leaf.directories| - depth => leaf.directories[depth + i].key)
  }

  // --------------------------------------------------------------- what is where

  predicate HasFile(node: Node, key: string) {
    exists i :: 0 <= i < |node.files| && node.files[i].key == key
  }

  function Child(node: Node, key: string): Node
    requires HasDirectory(node, key)
  {
    node.directories[IndexOf(node.directories, key)].child
  }

  predicate HasChain(node: Node, chain: seq<string>) {
    chain == [] || (HasDirectory(node, chain[0]) && HasChain(Child(node, chain[0]), chain[1..]))
  }

  predicate Has(node: Node, chain: seq<string>, key: string) {
    if chain == [] then HasFile(node, key)
    else HasDirectory(node, chain[0]) && Has(Child(node, chain[0]), chain[1..], key)
  }

  predicate DirectoriesDiffer(node: Node) {
    forall i, j :: 0 <= i < j < |node.directories| ==> node.directories[i].segment.key != node.directories[j].segment.key
  }

  predicate FilesDiffer(node: Node) {
    forall i, j :: 0 <= i < j < |node.files| ==> node.files[i].key != node.files[j].key
  }

  predicate WellFormed(node: Node) {
    && DirectoriesDiffer(node) && FilesDiffer(node)
    && forall i :: 0 <= i < |node.directories| ==> WellFormed(node.directories[i].child)
  }

  /** A directory after a leaf went in: grown or made if it is on the leaf's way, and else as it was. */
  function ChildAfter(node: Node, leaf: Leaf, depth: nat, key: string): Node
    requires depth < |leaf.directories| && (HasDirectory(node, key) || key == leaf.directories[depth].key)
  {
    if key != leaf.directories[depth].key then Child(node, key)
    else Insert(if HasDirectory(node, key) then Child(node, key) else EMPTY, leaf, depth + 1)
  }

  lemma InsertedDirectory(node: Node, leaf: Leaf, depth: nat, key: string)
    requires depth < |leaf.directories|
    ensures var after := Insert(node, leaf, depth);
            && (HasDirectory(after, key) <==> HasDirectory(node, key) || key == leaf.directories[depth].key)
            && after.files == node.files
            && (HasDirectory(after, key) ==> Child(after, key) == ChildAfter(node, leaf, depth, key))
  {
    var after := Insert(node, leaf, depth);
    var k := leaf.directories[depth].key;
    var i := IndexOf(node.directories, k);
    assert i < |node.directories| <==> HasDirectory(node, k);
    assert after.directories[i].segment.key == k;
    forall j | 0 <= j < |node.directories| && j != i ensures after.directories[j] == node.directories[j] {
    }
    if HasDirectory(node, key) {
      var j := IndexOf(node.directories, key);
      assert after.directories[j].segment.key == key;
    }
    if HasDirectory(after, key) {
      var j := IndexOf(after.directories, key);
      assert j != i ==> node.directories[j].segment.key == key;
    }
  }

  /** A tree holds a new leaf where it says, and everything else where it was. */
  lemma {:induction false} InsertedHas(node: Node, leaf: Leaf, depth: nat, chain: seq<string>, key: string)
    requires depth <= |leaf.directories|
    ensures Has(Insert(node, leaf, depth), chain, key) <==>
            Has(node, chain, key) || (chain == Chain(leaf, depth) && key == leaf.key)
    decreases |leaf.directories| - depth
  {
    var after := Insert(node, leaf, depth);
    if depth == |leaf.directories| {
      assert Chain(leaf, depth) == [];
      assert after.directories == node.directories;
      if chain == [] {
        InsertedFile(node, leaf, key);
      }
    } else if chain == [] {
      assert after.files == node.files;
    } else {
      InsertedDirectory(node, leaf, depth, chain[0]);
      if chain[0] == leaf.directories[depth].key {
        InsertedHas(if HasDirectory(node, chain[0]) then Child(node, chain[0]) else EMPTY, leaf, depth + 1, chain[1..], key);
        assert !Has(EMPTY, chain[1..], key);
        ChainSteps(leaf, depth, chain);
      }
    }
  }

  lemma ChainSteps(leaf: Leaf, depth: nat, chain: seq<string>)
    requires depth < |leaf.directories| && chain != [] && chain[0] == leaf.directories[depth].key
    ensures chain == Chain(leaf, depth) <==> chain[1..] == Chain(leaf, depth + 1)
  {
    assert Chain(leaf, depth) == [leaf.directories[depth].key] + Chain(leaf, depth + 1);
    assert chain == [chain[0]] + chain[1..];
  }

  lemma InsertedFile(node: Node, leaf: Leaf, key: string)
    ensures HasFile(node.(files := node.files + [leaf]), key) <==> HasFile(node, key) || key == leaf.key
  {
    var after := node.(files := node.files + [leaf]);
    assert after.files[|node.files|] == leaf;
    if HasFile(node, key) {
      var i :| 0 <= i < |node.files| && node.files[i].key == key;
      assert after.files[i].key == key;
    }
  }

  lemma {:induction false} InsertKeepsForm(node: Node, leaf: Leaf, depth: nat)
    requires depth <= |leaf.directories| && WellFormed(node) && !Has(node, Chain(leaf, depth), leaf.key)
    ensures WellFormed(Insert(node, leaf, depth))
    decreases |leaf.directories| - depth
  {
    if depth == |leaf.directories| {
      assert Chain(leaf, depth) == [];
    } else {
      var key := leaf.directories[depth].key;
      var i := IndexOf(node.directories, key);
      ChainSteps(leaf, depth, Chain(leaf, depth));
      if i < |node.directories| {
        assert HasDirectory(node, key);
        InsertKeepsForm(node.directories[i].child, leaf, depth + 1);
      } else {
        assert !Has(EMPTY, Chain(leaf, depth + 1), leaf.key);
        InsertKeepsForm(EMPTY, leaf, depth + 1);
      }
    }
  }

  predicate LeafKeysDiffer(leaves: seq<Leaf>) {
    forall i, j :: 0 <= i < j < |leaves| ==> leaves[i].key != leaves[j].key
  }

  predicate IsLeafAt(leaves: seq<Leaf>, chain: seq<string>, key: string, i: nat)
    requires i < |leaves|
  {
    leaves[i].key == key && Chain(leaves[i], 0) == chain
  }

  /** The tree has exactly the given leaves, each under its own chain of directories. */
  lemma {:induction false} BuiltHas(leaves: seq<Leaf>, chain: seq<string>, key: string)
    ensures Has(Built(leaves), chain, key) <==> exists i :: 0 <= i < |leaves| && IsLeafAt(leaves, chain, key, i)
  {
    hide Insert;
    if leaves != [] {
      var n := |leaves| - 1;
      BuiltHas(leaves[..n], chain, key);
      InsertedHas(Built(leaves[..n]), leaves[n], 0, chain, key);
      if Has(Built(leaves[..n]), chain, key) {
        var i :| 0 <= i < n && IsLeafAt(leaves[..n], chain, key, i);
        assert IsLeafAt(leaves, chain, key, i);
      }
      forall i | 0 <= i < n && IsLeafAt(leaves, chain, key, i) ensures Has(Built(leaves[..n]), chain, key) {
        assert IsLeafAt(leaves[..n], chain, key, i);
      }
      assert IsLeafAt(leaves, chain, key, n) <==> chain == Chain(leaves[n], 0) && key == leaves[n].key;
    } else {
      assert !Has(EMPTY, chain, key);
    }
  }

  lemma {:induction false} BuiltIsWellFormed(leaves: seq<Leaf>)
    requires LeafKeysDiffer(leaves)
    ensures WellFormed(Built(leaves))
  {
    if leaves != [] {
      var n := |leaves| - 1;
      BuiltIsWellFormed(leaves[..n]);
      BuiltHas(leaves[..n], Chain(leaves[n], 0), leaves[n].key);
      InsertKeepsForm(Built(leaves[..n]), leaves[n], 0);
    }
  }

  // ------------------------------------------------------------------- the names

  function DirectoryCandidate(segment: Segment): Candidate {
    Candidate("directory:" + segment.key, (if segment.archive then "2/" else "0/") + segment.key, segment.name)
  }

  function FileCandidate(leaf: Leaf): Candidate {
    Candidate("file:" + leaf.key, "1/" + leaf.provenance, leaf.basename)
  }

  function Siblings(node: Node): (s: seq<Candidate>)
    ensures |s| == |node.directories| + |node.files|
    ensures forall i :: 0 <= i < |node.directories| ==> s[i] == DirectoryCandidate(node.directories[i].segment)
    ensures forall i :: 0 <= i < |node.files| ==> s[|node.directories| + i] == FileCandidate(node.files[i])
  {
    seq(|node.directories|, i requires 0 <= i < |node.directories| => DirectoryCandidate(node.directories[i].segment))
    + seq(|node.files|, i requires 0 <= i < |node.files| => FileCandidate(node.files[i]))
  }

  lemma PrefixKeeps(prefix: string, a: string, b: string)
    ensures prefix + a == prefix + b ==> a == b
  {
    assert a == (prefix + a)[|prefix|..] && b == (prefix + b)[|prefix|..];
  }

  lemma CandidateKeysDiffer(a: Segment, b: Segment, x: Leaf, y: Leaf)
    ensures a.key != b.key ==> DirectoryCandidate(a).key != DirectoryCandidate(b).key
    ensures x.key != y.key ==> FileCandidate(x).key != FileCandidate(y).key
    ensures DirectoryCandidate(a).key != FileCandidate(x).key
  {
    PrefixKeeps("directory:", a.key, b.key);
    PrefixKeeps("file:", x.key, y.key);
    assert DirectoryCandidate(a).key[0] == 'd' && FileCandidate(x).key[0] == 'f';
  }

  lemma SiblingsDiffer(node: Node)
    requires DirectoriesDiffer(node) && FilesDiffer(node)
    ensures KeysDiffer(Siblings(node))
  {
    hide DirectoryCandidate, FileCandidate;
    var s, n, ds, fs := Siblings(node), |node.directories|, node.directories, node.files;
    forall i, j | 0 <= i < j < |s| ensures s[i].key != s[j].key {
      var a := if i < n then ds[i].segment else Segment("", "", false);
      var b := if j < n then ds[j].segment else Segment("", "", false);
      var x := if i >= n then fs[i - n] else Leaf("", "", "", []);
      var y := if j >= n then fs[j - n] else Leaf("", "", "", []);
      assert s[i] == if i < n then DirectoryCandidate(a) else FileCandidate(x);
      assert s[j] == if j < n then DirectoryCandidate(b) else FileCandidate(y);
      CandidateKeysDiffer(a, b, x, y);
      CandidateKeysDiffer(a, b, y, x);
    }
  }

  function Names(t: Text, node: Node): map<string, string> { AllocateNames(t, Siblings(node)) }

  /** A child's name; the empty name never occurs for a child that is there. */
  function NameIn(t: Text, node: Node, key: string): string {
    if key in Names(t, node) then Names(t, node)[key] else ""
  }

  /** A key of a directory or file of this node. */
  predicate IsSibling(node: Node, key: string) {
    exists i :: 0 <= i < |Siblings(node)| && Siblings(node)[i].key == key
  }

  lemma DirectoryIsSibling(node: Node, key: string)
    requires HasDirectory(node, key)
    ensures IsSibling(node, "directory:" + key)
  {
    var i := IndexOf(node.directories, key);
    assert Siblings(node)[i].key == "directory:" + key;
  }

  lemma FileIsSibling(node: Node, key: string)
    requires HasFile(node, key)
    ensures IsSibling(node, "file:" + key)
  {
    var i :| 0 <= i < |node.files| && node.files[i].key == key;
    assert Siblings(node)[|node.directories| + i].key == "file:" + key;
  }

  /** Two children of one node never share a name, whatever they are. */
  lemma SiblingNamesDiffer(t: Text, node: Node, a: string, b: string)
    requires NumbersTell(t) && WellFormed(node) && IsSibling(node, a) && IsSibling(node, b)
    ensures IsComponent(NameIn(t, node, a))
    ensures a != b ==> Key(t, NameIn(t, node, a)) != Key(t, NameIn(t, node, b))
  {
    SiblingsDiffer(node);
    var s := Siblings(node);
    var i :| 0 <= i < |s| && s[i].key == a;
    var j :| 0 <= j < |s| && s[j].key == b;
    NameIsComponent(t, s, s[i]);
    if a != b {
      NamesCollideNever(t, s, s[i], s[j]);
    }
  }

  // ------------------------------------------------------------------- the paths

  function DirectoryPath(t: Text, node: Node, chain: seq<string>): (path: seq<string>)
    requires HasChain(node, chain)
    ensures |path| == |chain|
  {
    if chain == [] then []
    else [NameIn(t, node, "directory:" + chain[0])] + DirectoryPath(t, Child(node, chain[0]), chain[1..])
  }

  function Path(t: Text, node: Node, chain: seq<string>, key: string): (path: seq<string>)
    requires Has(node, chain, key)
    ensures |path| == |chain| + 1
  {
    if chain == [] then [NameIn(t, node, "file:" + key)]
    else [NameIn(t, node, "directory:" + chain[0])] + Path(t, Child(node, chain[0]), chain[1..], key)
  }

  /** Leaves with one chain of directories lie in one directory. */
  lemma {:induction false} PathIsInDirectory(t: Text, node: Node, chain: seq<string>, key: string)
    requires Has(node, chain, key)
    ensures HasChain(node, chain)
    ensures Path(t, node, chain, key)[..|chain|] == DirectoryPath(t, node, chain)
  {
    if chain != [] {
      PathIsInDirectory(t, Child(node, chain[0]), chain[1..], key);
      FrontOf(NameIn(t, node, "directory:" + chain[0]), Path(t, Child(node, chain[0]), chain[1..], key), |chain| - 1);
    }
  }

  lemma FrontOf(name: string, rest: seq<string>, n: nat)
    requires n <= |rest|
    ensures ([name] + rest)[..n + 1] == [name] + rest[..n]
  {
  }

  /** One path leads to or through the place of the other, compared without case. */
  predicate Covers(t: Text, p: seq<string>, q: seq<string>) {
    |p| <= |q| && forall i :: 0 <= i < |p| ==> Key(t, p[i]) == Key(t, q[i])
  }

  lemma CoversStep(t: Text, p: seq<string>, q: seq<string>)
    requires p != [] && Covers(t, p, q)
    ensures q != [] && Key(t, p[0]) == Key(t, q[0]) && Covers(t, p[1..], q[1..])
  {
  }

  lemma ChildIsWellFormed(node: Node, key: string)
    requires WellFormed(node) && HasDirectory(node, key)
    ensures WellFormed(Child(node, key))
  {
  }

  lemma DirectoryKeysDiffer(a: string, b: string)
    ensures a != b ==> "directory:" + a != "directory:" + b
    ensures "directory:" + a != "file:" + b
  {
    PrefixKeeps("directory:", a, b);
    assert ("directory:" + a)[0] == 'd' && ("file:" + b)[0] == 'f';
  }

  /** Two places in a tree that begin with one name begin the same way. */
  lemma SameHead(t: Text, node: Node, c: seq<string>, j: string, d: seq<string>, k: string)
    requires NumbersTell(t) && WellFormed(node) && Has(node, c, j) && Has(node, d, k)
    requires Key(t, Path(t, node, c, j)[0]) == Key(t, Path(t, node, d, k)[0])
    ensures (c == [] && d == [] && j == k) || (c != [] && d != [] && c[0] == d[0])
  {
    SiblingOf(node, c, j);
    SiblingOf(node, d, k);
    SiblingNamesDiffer(t, node, if c == [] then "file:" + j else "directory:" + c[0],
                       if d == [] then "file:" + k else "directory:" + d[0]);
    DirectoryKeysDiffer(if c == [] then "" else c[0], if d == [] then k else d[0]);
    DirectoryKeysDiffer(if d == [] then "" else d[0], j);
    PrefixKeeps("file:", j, k);
  }

  /** No leaf's path is, or lies under, another leaf's path. */
  lemma {:induction false} PathsArePrefixFree(t: Text, node: Node, c: seq<string>, j: string, d: seq<string>, k: string)
    requires NumbersTell(t) && WellFormed(node) && Has(node, c, j) && Has(node, d, k) && (c != d || j != k)
    ensures !Covers(t, Path(t, node, c, j), Path(t, node, d, k))
    decreases |c|
  {
    hide NameIn, Key, NumbersTell, WellFormed, Covers, HasDirectory, HasFile;
    var p, q := Path(t, node, c, j), Path(t, node, d, k);
    if Covers(t, p, q) {
      CoversStep(t, p, q);
      SameHead(t, node, c, j, d, k);
      assert c == [c[0]] + c[1..] && d == [d[0]] + d[1..];
      ChildIsWellFormed(node, c[0]);
      PathsArePrefixFree(t, Child(node, c[0]), c[1..], j, d[1..], k);
    }
  }

  lemma SiblingOf(node: Node, chain: seq<string>, key: string)
    requires Has(node, chain, key)
    ensures IsSibling(node, if chain == [] then "file:" + key else "directory:" + chain[0])
  {
    if chain == [] {
      FileIsSibling(node, key);
    } else {
      DirectoryIsSibling(node, chain[0]);
    }
  }

  lemma SameNameSameDirectory(t: Text, node: Node, a: string, b: string)
    requires NumbersTell(t) && WellFormed(node) && HasDirectory(node, a) && HasDirectory(node, b)
    requires Key(t, NameIn(t, node, "directory:" + a)) == Key(t, NameIn(t, node, "directory:" + b))
    ensures a == b
  {
    DirectoryIsSibling(node, a);
    DirectoryIsSibling(node, b);
    SiblingNamesDiffer(t, node, "directory:" + a, "directory:" + b);
    DirectoryKeysDiffer(a, b);
  }

  /** Different chains of directories become different directories. */
  lemma {:induction false} DirectoriesArePlacedApart(t: Text, node: Node, c: seq<string>, d: seq<string>)
    requires NumbersTell(t) && WellFormed(node) && HasChain(node, c) && HasChain(node, d) && c != d
    ensures |c| == |d| ==> !Covers(t, DirectoryPath(t, node, c), DirectoryPath(t, node, d))
    decreases |c|
  {
    hide NameIn, Key, NumbersTell, WellFormed, Covers, HasDirectory;
    var p, q := DirectoryPath(t, node, c), DirectoryPath(t, node, d);
    if c != [] && |c| == |d| && Covers(t, p, q) {
      CoversStep(t, p, q);
      SameNameSameDirectory(t, node, c[0], d[0]);
      assert c == [c[0]] + c[1..] && d == [d[0]] + d[1..];
      ChildIsWellFormed(node, c[0]);
      DirectoriesArePlacedApart(t, Child(node, c[0]), c[1..], d[1..]);
    }
  }

  lemma NameIsSafe(t: Text, node: Node, chain: seq<string>, key: string)
    requires NumbersTell(t) && WellFormed(node) && Has(node, chain, key)
    ensures IsComponent(Path(t, node, chain, key)[0])
  {
    SiblingOf(node, chain, key);
    var a := if chain == [] then "file:" + key else "directory:" + chain[0];
    SiblingNamesDiffer(t, node, a, a);
  }

  /** No component of a path is empty, `.` or `..`. */
  lemma {:induction false} PathIsSafe(t: Text, node: Node, chain: seq<string>, key: string, i: nat)
    requires NumbersTell(t) && WellFormed(node) && Has(node, chain, key) && i <= |chain|
    ensures IsComponent(Path(t, node, chain, key)[i])
    decreases i
  {
    if i == 0 {
      NameIsSafe(t, node, chain, key);
    } else {
      ChildIsWellFormed(node, chain[0]);
      PathIsSafe(t, Child(node, chain[0]), chain[1..], key, i - 1);
    }
  }

  // ------------------------------------------------ what each path is named after

  /** The node reached through a chain of directories. */
  function NodeAt(node: Node, chain: seq<string>): Node
    requires HasChain(node, chain)
  {
    if chain == [] then node else NodeAt(Child(node, chain[0]), chain[1..])
  }

  /** The leaf itself is among the files there. */
  predicate Holds(node: Node, chain: seq<string>, leaf: Leaf) {
    if chain == [] then leaf in node.files
    else HasDirectory(node, chain[0]) && Holds(Child(node, chain[0]), chain[1..], leaf)
  }

  lemma {:induction false} InsertedHolds(node: Node, leaf: Leaf, depth: nat, chain: seq<string>, other: Leaf)
    requires depth <= |leaf.directories|
    ensures Holds(Insert(node, leaf, depth), chain, other) <==>
            Holds(node, chain, other) || (chain == Chain(leaf, depth) && other == leaf)
    decreases |leaf.directories| - depth
  {
    if depth == |leaf.directories| {
      assert Chain(leaf, depth) == [] && Insert(node, leaf, depth).directories == node.directories;
    } else if chain == [] {
      assert Insert(node, leaf, depth).files == node.files;
    } else {
      InsertedDirectory(node, leaf, depth, chain[0]);
      if chain[0] == leaf.directories[depth].key {
        InsertedHolds(if HasDirectory(node, chain[0]) then Child(node, chain[0]) else EMPTY, leaf, depth + 1, chain[1..], other);
        assert !Holds(EMPTY, chain[1..], other);
        ChainSteps(leaf, depth, chain);
      }
    }
  }

  lemma {:induction false} BuiltHolds(leaves: seq<Leaf>, chain: seq<string>, leaf: Leaf)
    ensures Holds(Built(leaves), chain, leaf) <==> leaf in leaves && Chain(leaf, 0) == chain
  {
    if leaves == [] {
      assert !Holds(EMPTY, chain, leaf);
    } else {
      var n := |leaves| - 1;
      BuiltHolds(leaves[..n], chain, leaf);
      InsertedHolds(Built(leaves[..n]), leaves[n], 0, chain, leaf);
      assert leaves == leaves[..n] + [leaves[n]];
    }
  }

  /** The segment is that of a directory there. */
  predicate HoldsSegment(node: Node, chain: seq<string>, segment: Segment) {
    if chain == [] then exists i :: 0 <= i < |node.directories| && node.directories[i].segment == segment
    else HasDirectory(node, chain[0]) && HoldsSegment(Child(node, chain[0]), chain[1..], segment)
  }

  /** A leaf passes through the chain, counted from `depth` on, and goes on into the segment. */
  predicate PassesInto(leaf: Leaf, depth: nat, chain: seq<string>, segment: Segment) {
    && depth + |chain| < |leaf.directories|
    && (forall i :: 0 <= i < |chain| ==> chain[i] == leaf.directories[depth + i].key)
    && segment == leaf.directories[depth + |chain|]
  }

  lemma {:induction false} InsertedSegment(node: Node, leaf: Leaf, depth: nat, chain: seq<string>, segment: Segment)
    requires depth <= |leaf.directories| && HoldsSegment(Insert(node, leaf, depth), chain, segment)
    ensures HoldsSegment(node, chain, segment) || PassesInto(leaf, depth, chain, segment)
    decreases |leaf.directories| - depth
  {
    var after := Insert(node, leaf, depth);
    if depth == |leaf.directories| {
      assert after.directories == node.directories;
    } else if chain == [] {
      var i :| 0 <= i < |after.directories| && after.directories[i].segment == segment;
      var k := IndexOf(node.directories, leaf.directories[depth].key);
      assert i < |node.directories| ==> node.directories[i].segment == segment;
    } else {
      InsertedDirectory(node, leaf, depth, chain[0]);
      if chain[0] == leaf.directories[depth].key {
        InsertedSegment(if HasDirectory(node, chain[0]) then Child(node, chain[0]) else EMPTY, leaf, depth + 1, chain[1..], segment);
        assert !HoldsSegment(EMPTY, chain[1..], segment);
        if PassesInto(leaf, depth + 1, chain[1..], segment) {
          assert forall i :: 1 <= i < |chain| ==> chain[i] == chain[1..][i - 1];
        }
      }
    }
  }

  lemma NothingInEmpty(chain: seq<string>, segment: Segment)
    ensures !HoldsSegment(EMPTY, chain, segment)
  {
  }

  lemma {:induction false} BuiltSegment(leaves: seq<Leaf>, chain: seq<string>, segment: Segment) returns (i: nat)
    requires HoldsSegment(Built(leaves), chain, segment)
    ensures i < |leaves| && PassesInto(leaves[i], 0, chain, segment)
  {
    NothingInEmpty(chain, segment);
    assert leaves != [];
    var n := |leaves| - 1;
    InsertedSegment(Built(leaves[..n]), leaves[n], 0, chain, segment);
    if PassesInto(leaves[n], 0, chain, segment) {
      i := n;
    } else {
      i := BuiltSegment(leaves[..n], chain, segment);
    }
  }

  lemma {:induction false} HoldsAt(node: Node, chain: seq<string>, leaf: Leaf, segment: Segment)
    requires HasChain(node, chain)
    ensures Holds(node, chain, leaf) <==> leaf in NodeAt(node, chain).files
    ensures HoldsSegment(node, chain, segment) <==>
            exists i :: 0 <= i < |NodeAt(node, chain).directories| && NodeAt(node, chain).directories[i].segment == segment
  {
    if chain != [] {
      HoldsAt(Child(node, chain[0]), chain[1..], leaf, segment);
    }
  }

  lemma {:induction false} NodeAtIsWellFormed(node: Node, chain: seq<string>)
    requires WellFormed(node) && HasChain(node, chain)
    ensures WellFormed(NodeAt(node, chain))
    decreases |chain|
  {
    if chain != [] {
      ChildIsWellFormed(node, chain[0]);
      NodeAtIsWellFormed(Child(node, chain[0]), chain[1..]);
    }
  }

  lemma {:induction false} PathEnds(t: Text, node: Node, chain: seq<string>, key: string)
    requires Has(node, chain, key)
    ensures HasChain(node, chain)
    ensures Path(t, node, chain, key)[|chain|] == NameIn(t, NodeAt(node, chain), "file:" + key)
  {
    if chain != [] {
      PathEnds(t, Child(node, chain[0]), chain[1..], key);
    }
  }

  lemma {:induction false} PathPasses(t: Text, node: Node, chain: seq<string>, key: string, d: nat)
    requires Has(node, chain, key) && d < |chain|
    ensures HasChain(node, chain[..d]) && HasDirectory(NodeAt(node, chain[..d]), chain[d])
    ensures Path(t, node, chain, key)[d] == NameIn(t, NodeAt(node, chain[..d]), "directory:" + chain[d])
    decreases d
  {
    hide NameIn, HasDirectory, HasFile;
    if d > 0 {
      PathPasses(t, Child(node, chain[0]), chain[1..], key, d - 1);
      assert chain[..d][1..] == chain[1..][..d - 1] && chain[..d][0] == chain[0];
    }
  }

  // ---- in terms of the leaves

  /** Leaf `j` lies in the directory with this chain. */
  predicate LiesIn(leaves: seq<Leaf>, chain: seq<string>, j: nat)
    requires j < |leaves|
  {
    Chain(leaves[j], 0) == chain
  }

  /** Leaf `j` goes through that directory into another one below. */
  predicate GoesOn(leaves: seq<Leaf>, chain: seq<string>, j: nat)
    requires j < |leaves|
  {
    |chain| < |leaves[j].directories| && forall i :: 0 <= i < |chain| ==> chain[i] == leaves[j].directories[i].key
  }

  /** No other file of the directory, and no directory in it, asks for the same name. */
  predicate FileIsAlone(t: Text, leaves: seq<Leaf>, i: nat)
    requires i < |leaves|
  {
    var chain, name := Chain(leaves[i], 0), Key(t, SafeBasename(t, leaves[i].basename));
    forall j :: 0 <= j < |leaves| ==>
      && (LiesIn(leaves, chain, j) && leaves[j].key != leaves[i].key ==> Key(t, SafeBasename(t, leaves[j].basename)) != name)
      && (GoesOn(leaves, chain, j) ==> Key(t, SafeBasename(t, leaves[j].directories[|chain|].name)) != name)
  }

  /**
    The last part of a leaf's path is the safe form of its own base name, with a
    number only if something beside it asks for the same name.
   */
  ghost predicate NamedAsFile(t: Text, leaves: seq<Leaf>, i: nat, path: seq<string>)
    requires i < |leaves|
  {
    && |path| == |leaves[i].directories| + 1 && IsNameFor(t, leaves[i].basename, path[|path| - 1])
    && (FileIsAlone(t, leaves, i) ==> path[|path| - 1] == SafeBasename(t, leaves[i].basename))
  }

  lemma FileIsNamedAfterItself(t: Text, leaves: seq<Leaf>, i: nat)
    requires NumbersTell(t) && LeafKeysDiffer(leaves) && i < |leaves|
    ensures Has(Built(leaves), Chain(leaves[i], 0), leaves[i].key)
    ensures NamedAsFile(t, leaves, i, Path(t, Built(leaves), Chain(leaves[i], 0), leaves[i].key))
  {
    hide SafeBasename, Key, Insert, Built, AllocateNames, Siblings, FileIsAlone, IsNameFor, IsAlone;
    var leaf, chain := leaves[i], Chain(leaves[i], 0);
    var node := LeafIsThere(leaves, i);
    PathEnds(t, Built(leaves), chain, leaf.key);
    NamedAfterItself(t, Siblings(node), FileCandidate(leaf));
    if FileIsAlone(t, leaves, i) {
      FileAloneAmongSiblings(t, leaves, i);
    }
  }

  /** A single file gets its own safe name as its whole path. */
  lemma LoneFileKeepsItsName(t: Text, leaf: Leaf)
    requires NumbersTell(t) && leaf.directories == []
    ensures Has(Built([leaf]), [], leaf.key)
    ensures Path(t, Built([leaf]), [], leaf.key) == [SafeBasename(t, leaf.basename)]
  {
    hide SafeBasename, Key, Insert, Built, NameIn;
    assert Chain(leaf, 0) == [];
    assert FileIsAlone(t, [leaf], 0);
    FileIsNamedAfterItself(t, [leaf], 0);
  }

  /** The node a leaf lies in, and its candidate there. */
  lemma LeafIsThere(leaves: seq<Leaf>, i: nat) returns (node: Node)
    requires LeafKeysDiffer(leaves) && i < |leaves|
    ensures Has(Built(leaves), Chain(leaves[i], 0), leaves[i].key) && HasChain(Built(leaves), Chain(leaves[i], 0))
    ensures node == NodeAt(Built(leaves), Chain(leaves[i], 0))
    ensures WellFormed(node) && KeysDiffer(Siblings(node)) && FileCandidate(leaves[i]) in Siblings(node)
  {
    hide Insert, Built, WellFormed, HasChain, Has;
    var leaf, chain := leaves[i], Chain(leaves[i], 0);
    BuiltHas(leaves, chain, leaf.key);
    assert IsLeafAt(leaves, chain, leaf.key, i);
    LeafHasChain(Built(leaves), chain, leaf.key);
    BuiltIsWellFormed(leaves);
    NodeAtIsWellFormed(Built(leaves), chain);
    node := NodeAt(Built(leaves), chain);
    BuiltHolds(leaves, chain, leaf);
    HoldsAt(Built(leaves), chain, leaf, Segment("", "", false));
    var k :| 0 <= k < |node.files| && node.files[k] == leaf;
    assert Siblings(node)[|node.directories| + k] == FileCandidate(leaf);
    WellFormedDiffers(node);
    SiblingsDiffer(node);
  }

  lemma WellFormedDiffers(node: Node)
    requires WellFormed(node)
    ensures DirectoriesDiffer(node) && FilesDiffer(node)
  {
  }

  lemma {:induction false} LeafHasChain(node: Node, chain: seq<string>, key: string)
    requires Has(node, chain, key)
    ensures HasChain(node, chain)
    decreases |chain|
  {
    if chain != [] {
      LeafHasChain(Child(node, chain[0]), chain[1..], key);
    }
  }

  lemma {:induction false} FileAloneAmongSiblings(t: Text, leaves: seq<Leaf>, i: nat)
    requires LeafKeysDiffer(leaves) && i < |leaves| && FileIsAlone(t, leaves, i)
    ensures HasChain(Built(leaves), Chain(leaves[i], 0))
    ensures IsAlone(t, Siblings(NodeAt(Built(leaves), Chain(leaves[i], 0))), FileCandidate(leaves[i]))
  {
    hide SafeBasename, Key, Insert, Built, Siblings, HasChain, NodeAt;
    var node := LeafIsThere(leaves, i);
    forall c | c in Siblings(node) && c.key != "file:" + leaves[i].key
      ensures Key(t, SafeBasename(t, c.basename)) != Key(t, SafeBasename(t, leaves[i].basename))
    {
      var m :| 0 <= m < |Siblings(node)| && Siblings(node)[m] == c;
      var j, isFile := SiblingCameWith(leaves, Chain(leaves[i], 0), m, leaves[i]);
    }
  }

  lemma SegmentCameWith(leaves: seq<Leaf>, chain: seq<string>, k: nat, any: Leaf) returns (j: nat)
    requires HasChain(Built(leaves), chain) && k < |NodeAt(Built(leaves), chain).directories|
    ensures j < |leaves| && GoesOn(leaves, chain, j)
    ensures leaves[j].directories[|chain|] == NodeAt(Built(leaves), chain).directories[k].segment
  {
    hide Insert, Built, HoldsSegment, Holds, HasChain, NodeAt;
    var segment := NodeAt(Built(leaves), chain).directories[k].segment;
    HoldsAt(Built(leaves), chain, any, segment);
    j := BuiltSegment(leaves, chain, segment);
  }

  lemma FileCameWith(leaves: seq<Leaf>, chain: seq<string>, k: nat) returns (j: nat)
    requires HasChain(Built(leaves), chain) && k < |NodeAt(Built(leaves), chain).files|
    ensures j < |leaves| && LiesIn(leaves, chain, j) && leaves[j] == NodeAt(Built(leaves), chain).files[k]
  {
    hide Insert, Built, HoldsSegment, Holds, HasChain, NodeAt;
    var leaf := NodeAt(Built(leaves), chain).files[k];
    HoldsAt(Built(leaves), chain, leaf, Segment("", "", false));
    BuiltHolds(leaves, chain, leaf);
    j :| 0 <= j < |leaves| && leaves[j] == leaf;
  }

  /** A sibling is a file or a directory that some leaf brought there. */
  lemma SiblingCameWith(leaves: seq<Leaf>, chain: seq<string>, k: nat, any: Leaf) returns (j: nat, isFile: bool)
    requires HasChain(Built(leaves), chain) && k < |Siblings(NodeAt(Built(leaves), chain))|
    ensures j < |leaves|
    ensures isFile ==> LiesIn(leaves, chain, j) && Siblings(NodeAt(Built(leaves), chain))[k] == FileCandidate(leaves[j])
    ensures !isFile ==> GoesOn(leaves, chain, j)
                        && Siblings(NodeAt(Built(leaves), chain))[k] == DirectoryCandidate(leaves[j].directories[|chain|])
  {
    hide Insert, Built, HasChain, NodeAt, LiesIn, GoesOn, FileCandidate, DirectoryCandidate;
    var node := NodeAt(Built(leaves), chain);
    isFile := k >= |node.directories|;
    if isFile {
      j := FileCameWith(leaves, chain, k - |node.directories|);
      assert Siblings(node)[|node.directories| + (k - |node.directories|)] == FileCandidate(leaves[j]);
    } else {
      j := SegmentCameWith(leaves, chain, k, any);
    }
  }

  // ---- and the directories

  /** Leaf `j` goes into the same directory as leaf `i` at depth `d`. */
  predicate SharesDirectory(leaves: seq<Leaf>, i: nat, d: nat, j: nat)
    requires i < |leaves| && j < |leaves| && d < |leaves[i].directories|
  {
    d < |leaves[j].directories| && forall e :: 0 <= e <= d ==> leaves[j].directories[e].key == leaves[i].directories[e].key
  }

  /** All leaves call this directory by one name, and nothing beside it asks for the same name. */
  predicate DirectoryIsAlone(t: Text, leaves: seq<Leaf>, i: nat, d: nat)
    requires i < |leaves| && d < |leaves[i].directories|
  {
    var segment, chain := leaves[i].directories[d], Chain(leaves[i], 0)[..d];
    forall j :: 0 <= j < |leaves| ==>
      && (SharesDirectory(leaves, i, d, j) ==> leaves[j].directories[d].name == segment.name)
      && (LiesIn(leaves, chain, j) ==> Key(t, SafeBasename(t, leaves[j].basename)) != Key(t, SafeBasename(t, segment.name)))
      && (GoesOn(leaves, chain, j) && leaves[j].directories[d].key != segment.key ==>
            Key(t, SafeBasename(t, leaves[j].directories[d].name)) != Key(t, SafeBasename(t, segment.name)))
  }

  /**
    Every other part of the path is the safe form of a directory's own name, as
    a leaf that goes there calls it, with a number only if something beside it
    asks for the same name.
   */
  ghost predicate NamedAsDirectory(t: Text, leaves: seq<Leaf>, i: nat, d: nat, path: seq<string>)
    requires i < |leaves| && d < |leaves[i].directories|
  {
    && d < |path|
    && (exists j :: 0 <= j < |leaves| && SharesDirectory(leaves, i, d, j) && IsNameFor(t, leaves[j].directories[d].name, path[d]))
    && (DirectoryIsAlone(t, leaves, i, d) ==> path[d] == SafeBasename(t, leaves[i].directories[d].name))
  }

  /** The node leaf `i` passes at depth `d`, and the leaf that brought its directory there. */
  lemma DirectoryIsThere(t: Text, leaves: seq<Leaf>, i: nat, d: nat) returns (node: Node, j: nat)
    requires LeafKeysDiffer(leaves) && i < |leaves| && d < |leaves[i].directories|
    ensures Has(Built(leaves), Chain(leaves[i], 0), leaves[i].key) && HasChain(Built(leaves), Chain(leaves[i], 0)[..d])
    ensures node == NodeAt(Built(leaves), Chain(leaves[i], 0)[..d])
    ensures WellFormed(node) && KeysDiffer(Siblings(node))
    ensures j < |leaves| && SharesDirectory(leaves, i, d, j)
    ensures DirectoryCandidate(leaves[j].directories[d]) in Siblings(node)
    ensures Path(t, Built(leaves), Chain(leaves[i], 0), leaves[i].key)[d] ==
            NameIn(t, node, "directory:" + leaves[i].directories[d].key)
  {
    hide Insert, Built, HasChain, NodeAt, Has, Path, WellFormed, NameIn;
    var leaf, chain := leaves[i], Chain(leaves[i], 0);
    BuiltHas(leaves, chain, leaf.key);
    assert IsLeafAt(leaves, chain, leaf.key, i);
    PathPasses(t, Built(leaves), chain, leaf.key, d);
    BuiltIsWellFormed(leaves);
    NodeAtIsWellFormed(Built(leaves), chain[..d]);
    node := NodeAt(Built(leaves), chain[..d]);
    var k := IndexOf(node.directories, chain[d]);
    j := SegmentCameWith(leaves, chain[..d], k, leaf);
    assert forall e :: 0 <= e < d ==> chain[..d][e] == leaf.directories[e].key;
    assert Siblings(node)[k] == DirectoryCandidate(node.directories[k].segment);
    WellFormedDiffers(node);
    SiblingsDiffer(node);
  }

  lemma DirectoryAloneAmongSiblings(t: Text, leaves: seq<Leaf>, i: nat, d: nat, node: Node, c: Candidate)
    requires i < |leaves| && d < |leaves[i].directories| && DirectoryIsAlone(t, leaves, i, d)
    requires HasChain(Built(leaves), Chain(leaves[i], 0)[..d]) && node == NodeAt(Built(leaves), Chain(leaves[i], 0)[..d])
    requires c.key == "directory:" + leaves[i].directories[d].key && c.basename == leaves[i].directories[d].name
    ensures IsAlone(t, Siblings(node), c)
  {
    hide SafeBasename, Key, Insert, Built, HasChain, NodeAt, Siblings;
    forall other | other in Siblings(node) && other.key != c.key
      ensures Key(t, SafeBasename(t, other.basename)) != Key(t, SafeBasename(t, c.basename))
    {
      var m :| 0 <= m < |Siblings(node)| && Siblings(node)[m] == other;
      var l, isFile := SiblingCameWith(leaves, Chain(leaves[i], 0)[..d], m, leaves[i]);
    }
  }

  lemma DirectoryIsNamedAfterItself(t: Text, leaves: seq<Leaf>, i: nat, d: nat)
    requires NumbersTell(t) && LeafKeysDiffer(leaves) && i < |leaves| && d < |leaves[i].directories|
    ensures Has(Built(leaves), Chain(leaves[i], 0), leaves[i].key)
    ensures NamedAsDirectory(t, leaves, i, d, Path(t, Built(leaves), Chain(leaves[i], 0), leaves[i].key))
  {
    hide SafeBasename, Key, Insert, Built, AllocateNames, HasChain, NodeAt, Has, Path, Siblings, IsNameFor, IsAlone;
    var node, j := DirectoryIsThere(t, leaves, i, d);
    var c := DirectoryCandidate(leaves[j].directories[d]);
    assert leaves[j].directories[d].key == leaves[i].directories[d].key;
    NamedAfterItself(t, Siblings(node), c);
    if DirectoryIsAlone(t, leaves, i, d) {
      DirectoryAloneAmongSiblings(t, leaves, i, d, node, c);
    }
  }

  // ---- who is served first

  /** The tables leave a digit at the front of a name where it is. */
  ghost predicate KeepsDigits(t: Text) {
    forall digit, rest :: digit in {'0', '1', '2'} ==> KeepsFront(t, digit, rest)
  }

  predicate KeepsFront(t: Text, digit: char, rest: string) {
    var key := Key(t, [digit] + rest); key != [] && key[0] == digit
  }

  lemma RankDecides(t: Text, a: Candidate, b: Candidate, i: char, x: string, j: char, y: string)
    requires KeepsDigits(t) && i in {'0', '1', '2'} && j in {'0', '1', '2'} && i < j
    requires a.provenance == [i] + x && b.provenance == [j] + y
    ensures Earlier(t, a, b)
  {
    assert KeepsFront(t, i, x) && KeepsFront(t, j, y);
  }

  /**
    Where a directory, files and archives ask for one name, the directory keeps
    it, and a file keeps it before an archive.
   */
  lemma DirectoriesComeFirst(t: Text, directory: Segment, file: Leaf, archive: Segment)
    requires KeepsDigits(t) && !directory.archive && archive.archive
    ensures Earlier(t, DirectoryCandidate(directory), FileCandidate(file))
    ensures Earlier(t, FileCandidate(file), DirectoryCandidate(archive))
    ensures Earlier(t, DirectoryCandidate(directory), DirectoryCandidate(archive))
  {
    assert "0/" + directory.key == ['0'] + ("/" + directory.key);
    assert "1/" + file.provenance == ['1'] + ("/" + file.provenance);
    assert "2/" + archive.key == ['2'] + ("/" + archive.key);
    RankDecides(t, DirectoryCandidate(directory), FileCandidate(file), '0', "/" + directory.key, '1', "/" + file.provenance);
    RankDecides(t, FileCandidate(file), DirectoryCandidate(archive), '1', "/" + file.provenance, '2', "/" + archive.key);
    RankDecides(t, DirectoryCandidate(directory), DirectoryCandidate(archive), '0', "/" + directory.key, '2', "/" + archive.key);
  }

  /** Whatever asks for a plain directory's name, and is not another plain directory, comes after it. */
  lemma PlainDirectoryIsEarlier(t: Text, node: Node, k: nat, m: nat)
    requires KeepsDigits(t) && k < |node.directories| && !node.directories[k].segment.archive
    requires m < |Siblings(node)| && (m >= |node.directories| || node.directories[m].segment.archive)
    ensures Earlier(t, DirectoryCandidate(node.directories[k].segment), Siblings(node)[m])
  {
    hide Earlier, KeepsDigits;
    var n := |node.directories|;
    var file := if m >= n then node.files[m - n] else Leaf("", "", "", []);
    var archive := if m < n then node.directories[m].segment else Segment("", "", true);
    if m >= n {
      assert Siblings(node)[n + (m - n)] == FileCandidate(file);
    }
    DirectoriesComeFirst(t, node.directories[k].segment, file, archive);
  }

  lemma {:induction false} PlainDirectoryKeepsItsName(t: Text, node: Node, k: nat)
    requires NumbersTell(t) && KeepsDigits(t) && WellFormed(node) && k < |node.directories|
    requires !node.directories[k].segment.archive
    requires forall j :: 0 <= j < |node.directories| && j != k && !node.directories[j].segment.archive ==>
               Key(t, SafeBasename(t, node.directories[j].segment.name)) != Key(t, SafeBasename(t, node.directories[k].segment.name))
    ensures NameIn(t, node, "directory:" + node.directories[k].segment.key) == SafeBasename(t, node.directories[k].segment.name)
  {
    hide SafeBasename, Key, Earlier, KeepsDigits, NumbersTell;
    var s, a := Siblings(node), DirectoryCandidate(node.directories[k].segment);
    SiblingsDiffer(node);
    assert s[k] == a;
    forall c | c in s && c.key != a.key && Key(t, SafeBasename(t, c.basename)) == Key(t, SafeBasename(t, a.basename))
      ensures Earlier(t, a, c)
    {
      var m :| 0 <= m < |s| && s[m] == c;
      PlainDirectoryIsEarlier(t, node, k, m);
    }
    FirstKeepsItsName(t, s, a);
  }

  // ------------------------------------------------------------------ the walk

  ghost predicate Under(node: Node, key: string) {
    exists chain :: Has(node, chain, key)
  }

  /** A leaf's key occurs at one place only. */
  ghost predicate Single(node: Node) {
    forall c, d, key :: Has(node, c, key) && Has(node, d, key) ==> c == d
  }

  lemma HasStep(node: Node, i: nat, chain: seq<string>, key: string)
    requires DirectoriesDiffer(node) && i < |node.directories|
    ensures Has(node, [node.directories[i].segment.key] + chain, key) <==> Has(node.directories[i].child, chain, key)
  {
    var name := node.directories[i].segment.key;
    assert HasDirectory(node, name) && IndexOf(node.directories, name) == i;
    assert ([name] + chain)[1..] == chain;
  }

  lemma ChildIsSingle(node: Node, i: nat)
    requires DirectoriesDiffer(node) && Single(node) && i < |node.directories|
    ensures Single(node.directories[i].child)
  {
    var name := node.directories[i].segment.key;
    forall c, d, key | Has(node.directories[i].child, c, key) && Has(node.directories[i].child, d, key) ensures c == d {
      HasStep(node, i, c, key);
      HasStep(node, i, d, key);
      assert ([name] + c)[1..] == c && ([name] + d)[1..] == d;
    }
  }

  lemma SameChild(node: Node, i: nat, j: nat, c: seq<string>, d: seq<string>, key: string)
    requires DirectoriesDiffer(node) && Single(node) && i < |node.directories| && j < |node.directories|
    requires Has(node.directories[i].child, c, key) && Has(node.directories[j].child, d, key)
    ensures i == j
  {
    HasStep(node, i, c, key);
    HasStep(node, j, d, key);
    var a, b := [node.directories[i].segment.key] + c, [node.directories[j].segment.key] + d;
    assert a[0] == b[0];
  }

  /** Different children hold different leaves, and none of a node's own files. */
  lemma ChildrenAreApart(node: Node, i: nat, j: nat, key: string)
    requires DirectoriesDiffer(node) && Single(node) && i < |node.directories| && j < |node.directories|
    requires Under(node.directories[i].child, key)
    ensures i != j ==> !Under(node.directories[j].child, key)
    ensures !HasFile(node, key)
  {
    var c :| Has(node.directories[i].child, c, key);
    HasStep(node, i, c, key);
    assert HasFile(node, key) ==> Has(node, [], key);
    forall d | Has(node.directories[j].child, d, key) ensures i == j {
      SameChild(node, i, j, c, d, key);
    }
  }

  /** The leaves of the first `n` children have their paths. */
  ghost predicate Placed(t: Text, node: Node, parent: seq<string>, n: nat, result: map<string, seq<string>>)
    requires n <= |node.directories|
  {
    && (forall key :: key in result ==> exists i :: 0 <= i < n && Under(node.directories[i].child, key))
    && (forall i, chain, key :: 0 <= i < n && Has(node.directories[i].child, chain, key) ==>
          key in result && result[key] == PathVia(t, node, parent, i, chain, key))
  }

  function PathVia(t: Text, node: Node, parent: seq<string>, i: nat, chain: seq<string>, key: string): seq<string>
    requires i < |node.directories| && Has(node.directories[i].child, chain, key)
  {
    parent + [NameIn(t, node, "directory:" + node.directories[i].segment.key)] + Path(t, node.directories[i].child, chain, key)
  }

  lemma PlacedNext(t: Text, node: Node, parent: seq<string>, n: nat, result: map<string, seq<string>>, inner: map<string, seq<string>>)
    requires n < |node.directories| && DirectoriesDiffer(node) && Single(node) && Placed(t, node, parent, n, result)
    requires forall key :: key in inner ==> Under(node.directories[n].child, key)
    requires forall chain, key :: Has(node.directories[n].child, chain, key) ==>
               key in inner && inner[key] == PathVia(t, node, parent, n, chain, key)
    ensures Placed(t, node, parent, n + 1, result + inner)
  {
    forall i, chain, key | 0 <= i < n + 1 && Has(node.directories[i].child, chain, key)
      ensures key in result + inner && (result + inner)[key] == PathVia(t, node, parent, i, chain, key)
    {
      if i < n {
        ChildrenAreApart(node, i, n, key);
      }
    }
    forall key | key in result + inner ensures exists i :: 0 <= i < n + 1 && Under(node.directories[i].child, key) {
      if key !in inner {
        var i :| 0 <= i < n && Under(node.directories[i].child, key);
      }
    }
  }

  method WalkChildren(t: Text, node: Node, names: map<string, string>, parent: seq<string>) returns (result: map<string, seq<string>>)
    requires NumbersTell(t) && WellFormed(node) && Single(node) && names == Names(t, node)
    ensures Placed(t, node, parent, |node.directories|, result)
    decreases node, 0
  {
    result := map[];
    var i := 0;
    while i < |node.directories|
      invariant i <= |node.directories| && Placed(t, node, parent, i, result)
    {
      var d := node.directories[i];
      ChildIsSingle(node, i);
      DirectoryIsSibling(node, d.segment.key);
      SiblingNamed(t, node, "directory:" + d.segment.key);
      var inner := Walk(t, d.child, parent + [names["directory:" + d.segment.key]]);
      PlacedNext(t, node, parent, i, result, inner);
      result := result + inner;
      i := i + 1;
    }
  }

  lemma SiblingNamed(t: Text, node: Node, key: string)
    requires WellFormed(node) && IsSibling(node, key)
    ensures key in Names(t, node)
  {
    SiblingsDiffer(node);
    var i :| 0 <= i < |Siblings(node)| && Siblings(node)[i].key == key;
    NameIsComponent(t, Siblings(node), Siblings(node)[i]);
  }

  /** A node's own files are at the given places, beside what its children hold. */
  predicate FilesPlaced(node: Node, places: seq<seq<string>>, inner: map<string, seq<string>>, result: map<string, seq<string>>)
    requires |places| <= |node.files|
  {
    && (forall key :: key in inner ==> key in result && (HasFile(node, key) || result[key] == inner[key]))
    && (forall key :: key in result ==> key in inner || HasFile(node, key))
    && (forall j :: 0 <= j < |places| ==> node.files[j].key in result && result[node.files[j].key] == places[j])
  }

  lemma FilesPlacedNext(node: Node, places: seq<seq<string>>, inner: map<string, seq<string>>, result: map<string, seq<string>>, place: seq<string>)
    requires FilesDiffer(node) && |places| < |node.files| && FilesPlaced(node, places, inner, result)
    ensures FilesPlaced(node, places + [place], inner, result[node.files[|places|].key := place])
  {
    assert HasFile(node, node.files[|places|].key);
  }

  function FilePlaces(t: Text, node: Node, parent: seq<string>): (places: seq<seq<string>>)
    ensures |places| == |node.files|
  {
    seq(|node.files|, j requires 0 <= j < |node.files| => parent + [NameIn(t, node, "file:" + node.files[j].key)])
  }

  lemma FileNamed(t: Text, node: Node, parent: seq<string>, i: nat)
    requires WellFormed(node) && i < |node.files|
    ensures "file:" + node.files[i].key in Names(t, node)
    ensures FilePlaces(t, node, parent)[i] == parent + [Names(t, node)["file:" + node.files[i].key]]
  {
    assert HasFile(node, node.files[i].key);
    FileIsSibling(node, node.files[i].key);
    SiblingNamed(t, node, "file:" + node.files[i].key);
  }

  method WalkFiles(t: Text, node: Node, names: map<string, string>, parent: seq<string>, inner: map<string, seq<string>>)
    returns (result: map<string, seq<string>>)
    requires WellFormed(node) && names == Names(t, node)
    ensures FilesPlaced(node, FilePlaces(t, node, parent), inner, result)
  {
    hide Names, FilePlaces;
    ghost var places := FilePlaces(t, node, parent);
    result := inner;
    var i := 0;
    while i < |node.files|
      invariant i <= |node.files| && FilesPlaced(node, places[..i], inner, result)
    {
      FileNamed(t, node, parent, i);
      var place := parent + [names["file:" + node.files[i].key]];
      FilesPlacedNext(node, places[..i], inner, result, place);
      assert places[..i] + [place] == places[..i + 1];
      result := result[node.files[i].key := place];
      i := i + 1;
    }
    assert places[..i] == places;
  }

  method Walk(t: Text, node: Node, parent: seq<string>) returns (result: map<string, seq<string>>)
    requires NumbersTell(t) && WellFormed(node) && Single(node)
    ensures forall key :: key in result ==> Under(node, key)
    ensures forall chain, key :: Has(node, chain, key) ==> key in result && result[key] == parent + Path(t, node, chain, key)
    decreases node, 1
  {
    var names := Allocate(t, Siblings(node));
    var inner := WalkChildren(t, node, names, parent);
    result := WalkFiles(t, node, names, parent, inner);
    forall chain, key | Has(node, chain, key) ensures key in result && result[key] == parent + Path(t, node, chain, key) {
      if chain == [] {
        FileIsPlaced(t, node, parent, inner, result, key);
      } else {
        ChildIsPlaced(t, node, parent, inner, chain, key);
      }
    }
    forall key | key in result ensures Under(node, key) {
      PlacedIsUnder(t, node, parent, inner, key);
    }
  }

  lemma FileIsPlaced(t: Text, node: Node, parent: seq<string>, inner: map<string, seq<string>>, result: map<string, seq<string>>, key: string)
    requires FilesPlaced(node, FilePlaces(t, node, parent), inner, result) && Has(node, [], key)
    ensures key in result && result[key] == parent + Path(t, node, [], key)
  {
    var j :| 0 <= j < |node.files| && node.files[j].key == key;
    assert result[key] == FilePlaces(t, node, parent)[j];
  }

  lemma ChildIsPlaced(t: Text, node: Node, parent: seq<string>, inner: map<string, seq<string>>, chain: seq<string>, key: string)
    requires DirectoriesDiffer(node) && Single(node) && Placed(t, node, parent, |node.directories|, inner)
    requires chain != [] && Has(node, chain, key)
    ensures !HasFile(node, key) && key in inner && inner[key] == parent + Path(t, node, chain, key)
  {
    var i := IndexOf(node.directories, chain[0]);
    assert Has(node.directories[i].child, chain[1..], key);
    ChildrenAreApart(node, i, i, key);
    assert inner[key] == PathVia(t, node, parent, i, chain[1..], key);
    ViaIsPath(t, node, parent, i, chain, key);
  }

  lemma ViaIsPath(t: Text, node: Node, parent: seq<string>, i: nat, chain: seq<string>, key: string)
    requires chain != [] && Has(node, chain, key) && i == IndexOf(node.directories, chain[0]) < |node.directories|
    ensures Has(node.directories[i].child, chain[1..], key)
    ensures PathVia(t, node, parent, i, chain[1..], key) == parent + Path(t, node, chain, key)
  {
    Rejoined(parent, NameIn(t, node, "directory:" + chain[0]), Path(t, node.directories[i].child, chain[1..], key));
  }

  lemma Rejoined(parent: seq<string>, name: string, rest: seq<string>)
    ensures parent + [name] + rest == parent + ([name] + rest)
  {
  }

  lemma UnderChild(node: Node, i: nat, key: string)
    requires DirectoriesDiffer(node) && i < |node.directories| && Under(node.directories[i].child, key)
    ensures Under(node, key)
  {
    var chain :| Has(node.directories[i].child, chain, key);
    HasStep(node, i, chain, key);
    assert Has(node, [node.directories[i].segment.key] + chain, key);
  }

  lemma UnderFile(node: Node, key: string)
    requires HasFile(node, key)
    ensures Under(node, key)
  {
    assert Has(node, [], key);
  }

  lemma PlacedIsUnder(t: Text, node: Node, parent: seq<string>, inner: map<string, seq<string>>, key: string)
    requires DirectoriesDiffer(node) && Placed(t, node, parent, |node.directories|, inner)
    requires key in inner || HasFile(node, key)
    ensures Under(node, key)
  {
    if HasFile(node, key) {
      UnderFile(node, key);
    } else {
      var i :| 0 <= i < |node.directories| && Under(node.directories[i].child, key);
      UnderChild(node, i, key);
    }
  }

  lemma BuiltIsSingle(leaves: seq<Leaf>)
    requires LeafKeysDiffer(leaves)
    ensures Single(Built(leaves))
  {
    forall c, d, key | Has(Built(leaves), c, key) && Has(Built(leaves), d, key) ensures c == d {
      BuiltHas(leaves, c, key);
      BuiltHas(leaves, d, key);
      var i :| 0 <= i < |leaves| && IsLeafAt(leaves, c, key, i);
      var j :| 0 <= j < |leaves| && IsLeafAt(leaves, d, key, j);
      assert i == j;
    }
  }

  /** Every leaf gets the path its own chain of directories leads to; nothing else gets one. */
  method AllocateTreePaths(t: Text, leaves: seq<Leaf>) returns (result: map<string, seq<string>>)
    requires NumbersTell(t) && LeafKeysDiffer(leaves)
    ensures forall i :: 0 <= i < |leaves| ==>
              && leaves[i].key in result && Has(Built(leaves), Chain(leaves[i], 0), leaves[i].key)
              && result[leaves[i].key] == Path(t, Built(leaves), Chain(leaves[i], 0), leaves[i].key)
    ensures forall i :: 0 <= i < |leaves| ==> NamedAsFile(t, leaves, i, result[leaves[i].key])
    ensures forall i, d :: 0 <= i < |leaves| && 0 <= d < |leaves[i].directories| ==>
              NamedAsDirectory(t, leaves, i, d, result[leaves[i].key])
    ensures forall key :: key in result ==> exists i :: 0 <= i < |leaves| && leaves[i].key == key
  {
    hide NamedAsFile, NamedAsDirectory, Path, Insert, Built;
    var root := Built(leaves);
    BuiltIsWellFormed(leaves);
    BuiltIsSingle(leaves);
    result := Walk(t, root, []);
    forall i | 0 <= i < |leaves|
      ensures Has(root, Chain(leaves[i], 0), leaves[i].key)
      ensures leaves[i].key in result && result[leaves[i].key] == Path(t, root, Chain(leaves[i], 0), leaves[i].key)
    {
      BuiltHas(leaves, Chain(leaves[i], 0), leaves[i].key);
      assert IsLeafAt(leaves, Chain(leaves[i], 0), leaves[i].key, i);
      assert [] + Path(t, root, Chain(leaves[i], 0), leaves[i].key) == Path(t, root, Chain(leaves[i], 0), leaves[i].key);
    }
    forall i | 0 <= i < |leaves| ensures NamedAsFile(t, leaves, i, result[leaves[i].key]) {
      FileIsNamedAfterItself(t, leaves, i);
    }
    forall i, d | 0 <= i < |leaves| && 0 <= d < |leaves[i].directories|
      ensures NamedAsDirectory(t, leaves, i, d, result[leaves[i].key])
    {
      DirectoryIsNamedAfterItself(t, leaves, i, d);
    }
    forall key | key in result ensures exists i :: 0 <= i < |leaves| && leaves[i].key == key {
      var chain :| Has(root, chain, key);
      BuiltHas(leaves, chain, key);
      var i :| 0 <= i < |leaves| && IsLeafAt(leaves, chain, key, i);
    }
  }

  /** Any two leaves of a batch get paths of which neither is, nor lies under, the other. */
  lemma LeavesArePrefixFree(t: Text, leaves: seq<Leaf>, i: nat, j: nat)
    requires NumbersTell(t) && LeafKeysDiffer(leaves) && i < |leaves| && j < |leaves| && i != j
    ensures var root := Built(leaves);
            && Has(root, Chain(leaves[i], 0), leaves[i].key) && Has(root, Chain(leaves[j], 0), leaves[j].key)
            && !Covers(t, Path(t, root, Chain(leaves[i], 0), leaves[i].key), Path(t, root, Chain(leaves[j], 0), leaves[j].key))
  {
    BuiltIsWellFormed(leaves);
    BuiltHas(leaves, Chain(leaves[i], 0), leaves[i].key);
    BuiltHas(leaves, Chain(leaves[j], 0), leaves[j].key);
    assert IsLeafAt(leaves, Chain(leaves[i], 0), leaves[i].key, i) && IsLeafAt(leaves, Chain(leaves[j], 0), leaves[j].key, j);
    PathsArePrefixFree(t, Built(leaves), Chain(leaves[i], 0), leaves[i].key, Chain(leaves[j], 0), leaves[j].key);
  }
}
