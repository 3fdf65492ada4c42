/**
  User feedback: a journal written before the database, replayed after stops, and
  an optimistic chain of label revisions for every asset.
 */
module Feedback {
  import opened Wrappers

  /**
    `canonical`: identifiers and size are what the journal accepts. `explicit`:
    the evidence names a user's action and the key is a digest.
   */
  datatype Record = Record(key: nat, asset: nat, verdict: int, expected: int, evidence: nat, canonical: bool, explicit: bool)

  datatype Asset = Asset(verdict: Option<int>, revision: nat)

  datatype Event = Event(record: Record, resulting: nat)

  datatype Database = Database(assets: map<nat, Asset>, events: seq<Event>)

  /** Journal files and archived ones by their key; `journalled` is everything ever accepted by the journal. */
  datatype State = State(db: Database, pending: map<nat, Record>, archived: map<nat, Record>, journalled: set<Record>)

  datatype Error = Invalid | Conflict

  predicate Writable(r: Record) { r.verdict in {0, 1} && r.expected >= 0 && r.canonical }

  predicate Valid(r: Record) { r.verdict in {0, 1} && r.expected >= 0 && r.explicit }

  predicate IsStored(events: seq<Event>, key: nat) {
    exists i :: 0 <= i < |events| && events[i].record.key == key
  }

  function Stored(events: seq<Event>, key: nat): (i: nat)
    requires IsStored(events, key)
    ensures i < |events| && events[i].record.key == key
    ensures forall j :: 0 <= j < i ==> events[j].record.key != key
  {
    if events[0].record.key == key then 0
    else
      assert IsStored(events[1..], key) by {
        var i :| 0 <= i < |events| && events[i].record.key == key;
        assert events[1..][i - 1].record.key == key;
      }
      1 + Stored(events[1..], key)
  }

  /** The transaction of one piece of feedback: new, already there, or refused. */
  function Apply(db: Database, r: Record): Result<Database, Error> {
    if !Valid(r) then Err(Invalid)
    else if IsStored(db.events, r.key) then
      if db.events[Stored(db.events, r.key)].record == r then Ok(db) else Err(Conflict)
    else if r.asset !in db.assets || db.assets[r.asset].revision != r.expected then Err(Conflict)
    else
      var resulting: nat := r.expected + 1;
      Ok(Database(db.assets[r.asset := Asset(Some(r.verdict), resulting)], db.events + [Event(r, resulting)]))
  }

  predicate IsApplied(s: State, r: Record) {
    exists i :: 0 <= i < |s.db.events| && s.db.events[i].record == r
  }

  /** The asset moved on before the record could count. */
  predicate IsSuperseded(s: State, r: Record) {
    Apply(s.db, r) == Err(Conflict) && r.asset in s.db.assets && s.db.assets[r.asset].revision > r.expected
  }

  // ------------------------------------------------------------------- steps

  ghost predicate WriteStep(s: State, t: State) {
    exists r :: WriteRecord(s, t, r)
  }

  /** A hard link publishes the whole record or nothing, and never replaces another. */
  predicate WriteRecord(s: State, t: State, r: Record) {
    && Writable(r) && (r.key in s.pending ==> s.pending[r.key] == r)
    && t == s.(pending := s.pending[r.key := r], journalled := s.journalled + {r})
  }

  ghost predicate ApplyStep(s: State, t: State) {
    exists r :: ApplyRecord(s, t, r)
  }

  predicate ApplyRecord(s: State, t: State, r: Record) {
    Apply(s.db, r).Ok? && t == s.(db := Apply(s.db, r).value)
  }

  /** After its commit a record's file is removed. */
  predicate ForgetKey(s: State, t: State, key: nat) {
    key in s.pending && IsApplied(s, s.pending[key]) && t == s.(pending := s.pending - {key})
  }

  predicate ArchiveKey(s: State, t: State, key: nat) {
    && key in s.pending && IsSuperseded(s, s.pending[key]) && key !in s.archived
    && t == s.(archived := s.archived[key := s.pending[key]])
  }

  predicate DropKey(s: State, t: State, key: nat) {
    && key in s.pending && key in s.archived && s.archived[key] == s.pending[key] && IsSuperseded(s, s.pending[key])
    && t == s.(pending := s.pending - {key})
  }

  ghost predicate JournalStep(s: State, t: State) {
    exists key :: ForgetKey(s, t, key) || ArchiveKey(s, t, key) || DropKey(s, t, key)
  }

  /** New media appear, with or without a first label. */
  ghost predicate AssetStep(s: State, t: State) {
    exists id: nat, verdict :: NewAsset(s, t, id, verdict)
  }

  predicate NewAsset(s: State, t: State, id: nat, verdict: Option<int>) {
    id !in s.db.assets && t == s.(db := s.db.(assets := s.db.assets[id := Asset(verdict, 0)]))
  }

  ghost predicate Step(s: State, t: State) {
    t == s || WriteStep(s, t) || ApplyStep(s, t) || JournalStep(s, t) || AssetStep(s, t)
  }

  ghost predicate Stepped(run: seq<State>, i: nat)
    requires i + 1 < |run|
  {
    Step(run[i], run[i + 1])
  }

  const START := State(Database(map[], []), map[], map[], {})

  /** A stop leaves the state of some step; whoever continues starts from it. */
  ghost predicate Run(run: seq<State>) {
    run != [] && run[0] == START && forall i :: 0 <= i < |run| - 1 ==> Stepped(run, i)
  }

  // --------------------------------------------------------------- invariants

  /** Events of an asset among the first `n`. */
  function Count(events: seq<Event>, asset: nat, n: nat): nat
    requires n <= |events|
  {
    if n == 0 then 0 else Count(events, asset, n - 1) + if events[n - 1].record.asset == asset then 1 else 0
  }

  /** The label an asset had after its first `n` events, if any of them was its own. */
  function LabelAfter(events: seq<Event>, asset: nat, n: nat): Option<int>
    requires n <= |events|
  {
    if n == 0 then None
    else if events[n - 1].record.asset == asset then Some(events[n - 1].record.verdict)
    else LabelAfter(events, asset, n - 1)
  }

  predicate Keyed(events: seq<Event>) {
    forall i, j :: 0 <= i < j < |events| ==> events[i].record.key != events[j].record.key
  }

  /** Every event starts where the one before it on the same asset ended. */
  predicate GapFree(events: seq<Event>) {
    forall i :: 0 <= i < |events| ==>
      events[i].record.expected == Count(events, events[i].record.asset, i) && events[i].resulting == events[i].record.expected + 1
  }

  predicate Faithful(db: Database) {
    && (forall i :: 0 <= i < |db.events| ==> db.events[i].record.asset in db.assets)
    && (forall a :: a in db.assets ==> db.assets[a].revision == Count(db.events, a, |db.events|))
    && (forall a :: a in db.assets && LabelAfter(db.events, a, |db.events|).Some? ==>
          db.assets[a].verdict == LabelAfter(db.events, a, |db.events|))
  }

  predicate Sound(db: Database) { Keyed(db.events) && GapFree(db.events) && Faithful(db) }

  /** Pending under its own key, applied, or archived after it was overtaken. */
  predicate Kept(s: State, r: Record) {
    (r.key in s.pending && s.pending[r.key] == r) || IsApplied(s, r) || (r.key in s.archived && s.archived[r.key] == r)
  }

  predicate Journal(s: State) {
    && (forall key :: key in s.pending ==>
          s.pending[key].key == key && Writable(s.pending[key]) && s.pending[key] in s.journalled)
    && (forall key :: key in s.archived ==>
          && s.archived[key].key == key && s.archived[key].asset in s.db.assets
          && s.db.assets[s.archived[key].asset].revision > s.archived[key].expected
          && !IsApplied(s, s.archived[key]))
    && (forall r :: r in s.journalled ==> Kept(s, r))
  }

  predicate Inv(s: State) { Sound(s.db) && Journal(s) }

  lemma {:induction false} CountExtends(events: seq<Event>, e: Event, asset: nat, n: nat)
    requires n <= |events|
    ensures Count(events + [e], asset, n) == Count(events, asset, n)
    ensures LabelAfter(events + [e], asset, n) == LabelAfter(events, asset, n)
  {
    if n > 0 {
      CountExtends(events, e, asset, n - 1);
      assert (events + [e])[n - 1] == events[n - 1];
    }
  }

  lemma {:induction false} NotCounted(events: seq<Event>, asset: nat, n: nat)
    requires n <= |events| && forall i :: 0 <= i < n ==> events[i].record.asset != asset
    ensures Count(events, asset, n) == 0 && LabelAfter(events, asset, n) == None
  {
    if n > 0 {
      NotCounted(events, asset, n - 1);
    }
  }

  lemma GapFreeExtends(events: seq<Event>, e: Event)
    requires GapFree(events) && e.record.expected == Count(events, e.record.asset, |events|)
    requires e.resulting == e.record.expected + 1
    ensures GapFree(events + [e])
  {
    var after := events + [e];
    forall i | 0 <= i < |after|
      ensures after[i].record.expected == Count(after, after[i].record.asset, i)
      ensures after[i].resulting == after[i].record.expected + 1
    {
      CountExtends(events, e, after[i].record.asset, i);
      assert i < |events| ==> after[i] == events[i];
    }
  }

  lemma FaithfulExtends(db: Database, e: Event)
    requires Faithful(db) && e.record.asset in db.assets && e.resulting == db.assets[e.record.asset].revision + 1
    ensures Faithful(Database(db.assets[e.record.asset := Asset(Some(e.record.verdict), e.resulting)], db.events + [e]))
  {
    var after := Database(db.assets[e.record.asset := Asset(Some(e.record.verdict), e.resulting)], db.events + [e]);
    var n := |db.events|;
    forall a | a in after.assets
      ensures after.assets[a].revision == Count(after.events, a, n + 1)
      ensures LabelAfter(after.events, a, n + 1).Some? ==> after.assets[a].verdict == LabelAfter(after.events, a, n + 1)
    {
      CountExtends(db.events, e, a, n);
      assert after.events[n] == e;
    }
  }

  lemma KeyedExtends(events: seq<Event>, e: Event)
    requires Keyed(events) && !IsStored(events, e.record.key)
    ensures Keyed(events + [e])
  {
    forall i, j | 0 <= i < j < |events + [e]| ensures (events + [e])[i].record.key != (events + [e])[j].record.key {
      assert (events + [e])[i] == events[i];
    }
  }

  lemma NewEventKeepsSound(db: Database, r: Record)
    requires Sound(db) && !IsStored(db.events, r.key) && r.asset in db.assets && r.expected == db.assets[r.asset].revision
    ensures Sound(Database(db.assets[r.asset := Asset(Some(r.verdict), r.expected + 1)], db.events + [Event(r, r.expected + 1)]))
  {
    var e := Event(r, r.expected + 1);
    KeyedExtends(db.events, e);
    GapFreeExtends(db.events, e);
    FaithfulExtends(db, e);
  }

  lemma ApplyKeepsSound(db: Database, r: Record)
    requires Sound(db) && Apply(db, r).Ok?
    ensures Sound(Apply(db, r).value)
  {
    hide Sound;
    if !IsStored(db.events, r.key) {
      NewEventKeepsSound(db, r);
    }
  }

  /** What happens to one record, and to every asset's revision, when some record is applied. */
  lemma ApplyChangesLittle(s: State, t: State, r: Record, other: Record)
    requires Sound(s.db) && Apply(s.db, r).Ok? && t == s.(db := Apply(s.db, r).value)
    ensures IsApplied(s, other) ==> IsApplied(t, other)
    ensures IsApplied(t, other) ==> IsApplied(s, other) || (other == r && s.db.assets[r.asset].revision == r.expected)
    ensures forall a :: a in s.db.assets ==> a in t.db.assets && t.db.assets[a].revision >= s.db.assets[a].revision
  {
    if t.db != s.db {
      assert t.db.events == s.db.events + [Event(r, r.expected + 1)];
      if IsApplied(s, other) {
        var i :| 0 <= i < |s.db.events| && s.db.events[i].record == other;
        assert t.db.events[i].record == other;
      }
      if IsApplied(t, other) {
        var i :| 0 <= i < |t.db.events| && t.db.events[i].record == other;
        assert i < |s.db.events| ==> s.db.events[i].record == other;
      }
    }
  }

  lemma ApplyKeepsInv(s: State, t: State)
    requires Inv(s) && ApplyStep(s, t)
    ensures Inv(t)
  {
    var r :| ApplyRecord(s, t, r);
    ApplyKeepsSound(s.db, r);
    forall key | key in t.archived
      ensures t.archived[key].key == key && t.archived[key].asset in t.db.assets
      ensures t.db.assets[t.archived[key].asset].revision > t.archived[key].expected
      ensures !IsApplied(t, t.archived[key])
    {
      ApplyChangesLittle(s, t, r, s.archived[key]);
    }
    forall other | other in t.journalled ensures Kept(t, other) {
      assert Kept(s, other);
      ApplyChangesLittle(s, t, r, other);
    }
  }

  lemma AssetKeepsInv(s: State, t: State)
    requires Inv(s) && AssetStep(s, t)
    ensures Inv(t)
  {
    var id: nat, verdict :| NewAsset(s, t, id, verdict);
    NotCounted(s.db.events, id, |s.db.events|);
    forall r | r in t.journalled ensures Kept(t, r) {
      assert Kept(s, r);
      assert IsApplied(s, r) == IsApplied(t, r);
    }
    forall key | key in t.archived ensures !IsApplied(t, t.archived[key]) {
      assert !IsApplied(s, s.archived[key]);
    }
  }

  /** Applying what was applied changes nothing and does not conflict. */
  lemma AppliedAgain(s: State, r: Record)
    requires Sound(s.db) && IsApplied(s, r)
    ensures Apply(s.db, r) == if Valid(r) then Ok(s.db) else Err(Invalid)
  {
    var i :| 0 <= i < |s.db.events| && s.db.events[i].record == r;
    assert IsStored(s.db.events, r.key) && Stored(s.db.events, r.key) == i;
  }

  lemma SupersededIsNotApplied(s: State, r: Record)
    requires Sound(s.db) && IsSuperseded(s, r)
    ensures !IsApplied(s, r)
  {
    if IsApplied(s, r) {
      AppliedAgain(s, r);
    }
  }

  lemma WriteKeepsInv(s: State, t: State)
    requires Inv(s) && WriteStep(s, t)
    ensures Inv(t)
  {
    var r :| WriteRecord(s, t, r);
    forall other ensures IsApplied(s, other) == IsApplied(t, other) {
    }
    forall other | other in t.journalled ensures Kept(t, other) {
      assert other == r || Kept(s, other);
    }
  }

  lemma RemovalKeepsInv(s: State, t: State, key: nat)
    requires Inv(s) && (ForgetKey(s, t, key) || DropKey(s, t, key))
    ensures Inv(t)
  {
    forall other ensures IsApplied(s, other) == IsApplied(t, other) {
    }
    forall other | other in t.journalled ensures Kept(t, other) {
      assert Kept(s, other);
    }
  }

  lemma ArchiveKeepsInv(s: State, t: State, key: nat)
    requires Inv(s) && ArchiveKey(s, t, key)
    ensures Inv(t)
  {
    SupersededIsNotApplied(s, s.pending[key]);
    forall other ensures IsApplied(s, other) == IsApplied(t, other) {
    }
    forall other | other in t.journalled ensures Kept(t, other) {
      assert Kept(s, other);
    }
  }

  lemma JournalKeepsInv(s: State, t: State)
    requires Inv(s) && JournalStep(s, t)
    ensures Inv(t)
  {
    var key :| ForgetKey(s, t, key) || ArchiveKey(s, t, key) || DropKey(s, t, key);
    if ArchiveKey(s, t, key) {
      ArchiveKeepsInv(s, t, key);
    } else {
      RemovalKeepsInv(s, t, key);
    }
  }

  lemma StepKeepsInv(s: State, t: State)
    requires Inv(s) && Step(s, t)
    ensures Inv(t)
  {
    if ApplyStep(s, t) {
      ApplyKeepsInv(s, t);
    } else if WriteStep(s, t) {
      WriteKeepsInv(s, t);
    } else if JournalStep(s, t) {
      JournalKeepsInv(s, t);
    } else if AssetStep(s, t) {
      AssetKeepsInv(s, t);
    }
  }

  lemma {:induction false} RunKeepsInv(run: seq<State>)
    requires Run(run)
    ensures Inv(run[|run| - 1])
  {
    if |run| > 1 {
      var n := |run| - 1;
      forall i | 0 <= i < n - 1 ensures Stepped(run[..n], i) {
        assert Stepped(run, i);
      }
      RunKeepsInv(run[..n]);
      assert Stepped(run, n - 1);
      StepKeepsInv(run[n - 1], run[n]);
    }
  }

  lemma Extend(run: seq<State>, t: State)
    requires Run(run) && Step(run[|run| - 1], t)
    ensures Run(run + [t])
  {
    forall i | 0 <= i < |run| ensures Stepped(run + [t], i) {
      assert i < |run| - 1 ==> Stepped(run, i);
    }
  }

  // ---------------------------------------------------------------- theorems

  /** How often a record was applied. */
  function Times(events: seq<Event>, r: Record, n: nat): nat
    requires n <= |events|
  {
    if n == 0 then 0 else Times(events, r, n - 1) + if events[n - 1].record == r then 1 else 0
  }

  lemma {:induction false} AtMostOnce(events: seq<Event>, r: Record, n: nat)
    requires n <= |events| && Keyed(events)
    ensures Times(events, r, n) <= 1
    ensures Times(events, r, n) == 1 <==> exists i :: 0 <= i < n && events[i].record == r
  {
    if n > 0 {
      AtMostOnce(events, r, n - 1);
    }
  }

  /**
    Whatever stops and replays happen, feedback the journal accepted is still
    pending, was applied exactly once, or was archived and never applied.
   */
  lemma ExactlyOnce(run: seq<State>, r: Record)
    requires Run(run) && r in run[|run| - 1].journalled
    ensures var s := run[|run| - 1];
            && ((r.key in s.pending && s.pending[r.key] == r)
                || Times(s.db.events, r, |s.db.events|) == 1
                || (r.key in s.archived && s.archived[r.key] == r))
            && Times(s.db.events, r, |s.db.events|) <= 1
            && (r.key in s.archived && s.archived[r.key] == r ==> Times(s.db.events, r, |s.db.events|) == 0)
  {
    RunKeepsInv(run);
    var s := run[|run| - 1];
    AtMostOnce(s.db.events, r, |s.db.events|);
    assert Kept(s, r);
  }

  /** An asset's events are a chain without gaps from its first revision to the present one. */
  lemma ChainIsGapFree(run: seq<State>, i: nat)
    requires Run(run) && i < |run[|run| - 1].db.events|
    ensures var db := run[|run| - 1].db;
            && db.events[i].record.expected == Count(db.events, db.events[i].record.asset, i)
            && db.events[i].resulting == db.events[i].record.expected + 1
            && db.events[i].record.asset in db.assets
            && db.events[i].resulting <= db.assets[db.events[i].record.asset].revision
  {
    RunKeepsInv(run);
    var db := run[|run| - 1].db;
    CountGrows(db.events, db.events[i].record.asset, i + 1, |db.events|);
  }

  lemma {:induction false} CountGrows(events: seq<Event>, asset: nat, m: nat, n: nat)
    requires m <= n <= |events|
    ensures Count(events, asset, m) <= Count(events, asset, n)
  {
    if m < n {
      CountGrows(events, asset, m, n - 1);
    }
  }
}
