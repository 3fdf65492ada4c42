/** The flat allocation as a loop over sets and counters, and what its result promises. */
module NameAllocation {
  import opened Naming

  predicate KeysDiffer(s: seq<Candidate>) {
    forall i, j :: 0 <= i < j < |s| ==> s[i].key != s[j].key
  }

  lemma {:induction false} KeyIsSomeones(t: Text, names: seq<string>, key: string)
    requires key in KeysOf(t, names)
    ensures exists j :: 0 <= j < |names| && Key(t, names[j]) == key
  {
    var n := |names| - 1;
    if key == Key(t, names[n]) {
      assert Key(t, names[n]) == key;
    } else {
      KeyIsSomeones(t, names[..n], key);
      var j :| 0 <= j < n && Key(t, names[..n][j]) == key;
      assert names[j] == names[..n][j];
    }
  }

  /** The first of a name finds it free: nobody before has got it. */
  lemma FirstIsFree(t: Text, bases: seq<string>, i: nat)
    requires NumbersTell(t) && i < |bases| && IsFirst(t, bases, i)
    ensures Key(t, bases[i]) !in KeysOf(t, Allocated(t, bases, i))
  {
    var names, key := Allocated(t, bases, i), Key(t, bases[i]);
    if key in KeysOf(t, names) {
      KeyIsSomeones(t, names, key);
      var j :| 0 <= j < i && Key(t, names[j]) == key;
      EarlierNamesStay(t, bases, i, |bases|);
      assert names[j] == Allocated(t, bases, |bases|)[j];
      OneName(t, bases, j);
      assert false;
    }
  }

  /** The least free number, tried one after another. */
  method FindNumber(t: Text, basename: string, reserved: set<string>, given: set<string>) returns (name: string)
    requires NumbersTell(t)
    ensures var taken := reserved + given;
            name == Numbered(basename, FirstFree(t, basename, taken, 1, |taken| + 1))
  {
    hide Numbered;
    ghost var taken := reserved + given;
    ghost var free := FirstFree(t, basename, taken, 1, |taken| + 1);
    SearchEnds(t, basename, taken);
    var number := 1;
    name := Numbered(basename, number);
    while Key(t, name) in reserved || Key(t, name) in given
      invariant 1 <= number <= free && name == Numbered(basename, number)
      decreases free - number
    {
      number := number + 1;
      name := Numbered(basename, number);
    }
  }

  method Reserve(t: Text, bases: seq<string>) returns (reserved: set<string>)
    ensures reserved == KeysOf(t, bases)
  {
    reserved := {};
    var i := 0;
    while i < |bases|
      invariant i <= |bases| && reserved == KeysOf(t, bases[..i])
    {
      assert bases[..i + 1][..i] == bases[..i];
      reserved := reserved + {Key(t, bases[i])};
      i := i + 1;
    }
    assert bases[..i] == bases;
  }

  predicate Counted(t: Text, bases: seq<string>, n: nat, seen: map<string, nat>)
    requires n <= |bases|
  {
    && (forall j :: 0 <= j < n ==> Key(t, bases[j]) in seen)
    && (forall key :: key in seen ==> seen[key] > 0 && exists j :: 0 <= j < n && Key(t, bases[j]) == key)
  }

  /** Whether a name was seen before tells whether a candidate is the first of it. */
  lemma OccurrenceTells(t: Text, bases: seq<string>, n: nat, seen: map<string, nat>)
    requires n < |bases| && Counted(t, bases, n, seen)
    ensures Key(t, bases[n]) !in seen <==> IsFirst(t, bases, n)
  {
  }

  lemma CountedNext(t: Text, bases: seq<string>, n: nat, seen: map<string, nat>, occurrence: nat)
    requires n < |bases| && Counted(t, bases, n, seen)
    ensures Counted(t, bases, n + 1, seen[Key(t, bases[n]) := occurrence + 1])
  {
    var longer := seen[Key(t, bases[n]) := occurrence + 1];
    forall key | key in longer ensures exists j :: 0 <= j < n + 1 && Key(t, bases[j]) == key {
      if key != Key(t, bases[n]) {
        var j :| 0 <= j < n && Key(t, bases[j]) == key;
      }
    }
  }

  method Choose(t: Text, bases: seq<string>, i: nat, occurrence: nat, reserved: set<string>, given: set<string>)
    returns (chosen: string)
    requires NumbersTell(t) && i < |bases| && (occurrence == 0 <==> IsFirst(t, bases, i))
    requires reserved == KeysOf(t, bases) && given == KeysOf(t, Allocated(t, bases, i))
    ensures chosen == Chosen(t, bases, Allocated(t, bases, i), i)
  {
    if IsFirst(t, bases, i) {
      FirstIsFree(t, bases, i);
    }
    if occurrence == 0 && Key(t, bases[i]) !in given {
      chosen := bases[i];
    } else {
      chosen := FindNumber(t, bases[i], reserved, given);
    }
  }

  lemma GivenNext(t: Text, names: seq<string>, chosen: string)
    ensures KeysOf(t, names + [chosen]) == KeysOf(t, names) + {Key(t, chosen)}
  {
    assert (names + [chosen])[..|names|] == names;
  }

  method Allocate(t: Text, candidates: seq<Candidate>) returns (result: map<string, string>)
    requires NumbersTell(t)
    ensures result == AllocateNames(t, candidates)
  {
    var prepared := Sorted(t, candidates);
    result := AllocateInOrder(t, prepared, Bases(t, prepared));
  }

  method AllocateInOrder(t: Text, prepared: seq<Candidate>, bases: seq<string>) returns (result: map<string, string>)
    requires NumbersTell(t) && |prepared| == |bases|
    ensures result == ByKey(prepared, Allocated(t, bases, |bases|), |prepared|)
  {
    var reserved := Reserve(t, bases);
    var given: set<string>, seen: map<string, nat> := {}, map[];
    result := map[];
    ghost var names := [];
    var i := 0;
    while i < |prepared|
      invariant i <= |prepared| == |bases| && names == Allocated(t, bases, i)
      invariant given == KeysOf(t, names) && Counted(t, bases, i, seen)
      invariant result == ByKey(prepared, names, i)
    {
      var key := Key(t, bases[i]);
      var occurrence := if key in seen then seen[key] else 0;
      OccurrenceTells(t, bases, i, seen);
      var chosen := Choose(t, bases, i, occurrence, reserved, given);
      CountedNext(t, bases, i, seen, occurrence);
      seen := seen[key := occurrence + 1];
      GivenNext(t, names, chosen);
      given := given + {Key(t, chosen)};
      result := result[prepared[i].key := chosen];
      ByKeyNext(prepared, names, chosen);
      names := names + [chosen];
      i := i + 1;
    }
  }

  lemma {:induction false} SameNames(s: seq<Candidate>, a: seq<string>, b: seq<string>, n: nat)
    requires n <= |s| && n <= |a| && n <= |b| && a[..n] == b[..n]
    ensures ByKey(s, a, n) == ByKey(s, b, n)
  {
    if n > 0 {
      assert a[n - 1] == a[..n][n - 1] == b[..n][n - 1] == b[n - 1];
      assert a[..n - 1] == a[..n][..n - 1] && b[..n - 1] == b[..n][..n - 1];
      SameNames(s, a, b, n - 1);
    }
  }

  lemma ByKeyNext(s: seq<Candidate>, names: seq<string>, name: string)
    requires |names| < |s|
    ensures ByKey(s, names + [name], |names| + 1) == ByKey(s, names, |names|)[s[|names|].key := name]
  {
    assert (names + [name])[..|names|] == names[..|names|];
    SameNames(s, names, names + [name], |names|);
  }

  // -------------------------------------------------- what the result promises

  lemma {:induction false} ByKeyHas(s: seq<Candidate>, names: seq<string>, n: nat)
    requires KeysDiffer(s) && n <= |s| && n <= |names|
    ensures forall i :: 0 <= i < n ==> s[i].key in ByKey(s, names, n) && ByKey(s, names, n)[s[i].key] == names[i]
  {
    if n > 0 {
      ByKeyHas(s, names, n - 1);
    }
  }

  lemma SortedKeepsKeys(t: Text, s: seq<Candidate>)
    requires KeysDiffer(s)
    ensures KeysDiffer(Sorted(t, s))
    ensures forall c :: c in s <==> c in Sorted(t, s)
  {
    SortedIsInOrder(t, s);
    var p := Sorted(t, s);
    forall c ensures c in s <==> c in p {
      assert c in s <==> c in multiset(s);
      assert c in p <==> c in multiset(p);
    }
    forall i, j | 0 <= i < j < |p| ensures p[i].key != p[j].key {
      TwiceIn(p, i, j);
      if p[i].key == p[j].key {
        OnceByKey(s, p[i], p[j]);
      }
    }
  }

  lemma {:induction false} OnceByKey(s: seq<Candidate>, a: Candidate, b: Candidate)
    requires KeysDiffer(s) && a.key == b.key
    ensures multiset(s)[a] + (if a == b then 0 else multiset(s)[b]) <= 1
  {
    if s != [] {
      assert s == [s[0]] + s[1..];
      OnceByKey(s[1..], a, b);
      if s[0] == a || s[0] == b {
        forall k | 0 <= k < |s[1..]| ensures s[1..][k] != a && s[1..][k] != b {
          assert s[1..][k] == s[k + 1];
        }
      }
    }
  }

  /** Where a candidate is served, and so what it is called. */
  lemma NameOf(t: Text, candidates: seq<Candidate>, c: Candidate) returns (i: nat)
    requires KeysDiffer(candidates) && c in candidates
    ensures var s := Sorted(t, candidates);
            && i < |s| && s[i] == c && c.key in AllocateNames(t, candidates)
            && AllocateNames(t, candidates)[c.key] == Allocated(t, Bases(t, s), |s|)[i]
  {
    SortedKeepsKeys(t, candidates);
    var s := Sorted(t, candidates);
    i :| 0 <= i < |s| && s[i] == c;
    ByKeyHas(s, Allocated(t, Bases(t, s), |s|), |s|);
  }

  /** Any two candidates get names that differ even without case, and that can be used in a path. */
  lemma NamesCollideNever(t: Text, candidates: seq<Candidate>, a: Candidate, b: Candidate)
    requires NumbersTell(t) && KeysDiffer(candidates) && a in candidates && b in candidates && a.key != b.key
    ensures var names := AllocateNames(t, candidates);
            && a.key in names && b.key in names && Key(t, names[a.key]) != Key(t, names[b.key])
  {
    var i := NameOf(t, candidates, a);
    var j := NameOf(t, candidates, b);
    var bases := Bases(t, Sorted(t, candidates));
    if i < j {
      NamesDiffer(t, bases, i, j);
    } else {
      NamesDiffer(t, bases, j, i);
    }
  }

  lemma NameIsComponent(t: Text, candidates: seq<Candidate>, a: Candidate)
    requires KeysDiffer(candidates) && a in candidates
    ensures var names := AllocateNames(t, candidates); a.key in names && IsComponent(names[a.key])
  {
    var s := Sorted(t, candidates);
    var i := NameOf(t, candidates, a);
    forall k | 0 <= k < |s| ensures IsComponent(Bases(t, s)[k]) {
      SafeIsComponent(t, s[k].basename);
    }
    NamesAreComponents(t, Bases(t, s), |s|, i);
  }

  /** Everyone else of the same base name is later in the order of provenance. */
  predicate IsServedFirst(t: Text, candidates: seq<Candidate>, a: Candidate) {
    forall c :: c in candidates && c.key != a.key && Key(t, SafeBasename(t, c.basename)) == Key(t, SafeBasename(t, a.basename)) ==>
      Earlier(t, a, c)
  }

  /** A name that is not the candidate's own is nobody's. */
  lemma NoNameIsTaken(t: Text, candidates: seq<Candidate>, a: Candidate, c: Candidate)
    requires NumbersTell(t) && KeysDiffer(candidates) && a in candidates && c in candidates
    ensures a.key in AllocateNames(t, candidates)
    ensures var name := AllocateNames(t, candidates)[a.key];
            name == SafeBasename(t, a.basename) || Key(t, name) != Key(t, SafeBasename(t, c.basename))
  {
    var bases := Bases(t, Sorted(t, candidates));
    var i := NameOf(t, candidates, a);
    var k := NameOf(t, candidates, c);
    OneName(t, bases, i);
    assert Key(t, bases[k]) in KeysOf(t, bases);
  }

  /** The first candidate of a base name keeps it. */
  lemma FirstKeepsItsName(t: Text, candidates: seq<Candidate>, a: Candidate)
    requires NumbersTell(t) && KeysDiffer(candidates) && a in candidates && IsServedFirst(t, candidates, a)
    ensures a.key in AllocateNames(t, candidates)
    ensures AllocateNames(t, candidates)[a.key] == SafeBasename(t, a.basename)
  {
    var s := Sorted(t, candidates);
    var bases := Bases(t, s);
    var i := NameOf(t, candidates, a);
    OneName(t, bases, i);
    SortedKeepsKeys(t, candidates);
    SortedIsInOrder(t, candidates);
    forall j | 0 <= j < i ensures Key(t, bases[j]) != Key(t, bases[i]) {
      assert s[j] in s && s[j].key != s[i].key && !Earlier(t, s[i], s[j]);
    }
  }

  /** A name that is the safe form of what was asked for, or that with a number before it. */
  ghost predicate IsNameFor(t: Text, basename: string, name: string) {
    name == SafeBasename(t, basename) || exists n: nat :: n >= 1 && name == Numbered(SafeBasename(t, basename), n)
  }

  /** Nobody else asks for the same name, compared without case. */
  predicate IsAlone(t: Text, candidates: seq<Candidate>, a: Candidate) {
    forall c :: c in candidates && c.key != a.key ==>
      Key(t, SafeBasename(t, c.basename)) != Key(t, SafeBasename(t, a.basename))
  }

  /** Every candidate is named after itself, with a number only if it shares its name. */
  lemma NamedAfterItself(t: Text, candidates: seq<Candidate>, a: Candidate)
    requires NumbersTell(t) && KeysDiffer(candidates) && a in candidates
    ensures a.key in AllocateNames(t, candidates)
    ensures IsNameFor(t, a.basename, AllocateNames(t, candidates)[a.key])
    ensures IsAlone(t, candidates, a) ==> AllocateNames(t, candidates)[a.key] == SafeBasename(t, a.basename)
  {
    hide SafeBasename, Numbered;
    var s := Sorted(t, candidates);
    var bases := Bases(t, s);
    var i := NameOf(t, candidates, a);
    OneName(t, bases, i);
    if !IsFirst(t, bases, i) {
      var taken := KeysOf(t, bases) + KeysOf(t, Allocated(t, bases, i));
      assert FirstFree(t, bases[i], taken, 1, |taken| + 1) >= 1;
    }
    if IsAlone(t, candidates, a) {
      FirstKeepsItsName(t, candidates, a);
    }
  }
}
