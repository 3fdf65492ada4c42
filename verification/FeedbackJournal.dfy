/** The feedback journal as the program drives it: write, submit and replay. */
module FeedbackJournal {
  import opened Wrappers
  import opened Feedback

  datatype Outcome = Applied | Superseded | Refused

  /** What replaying a pending record comes to. */
  function ReplayOutcome(s: State, r: Record): Outcome {
    match Apply(s.db, r)
    case Ok(_) => Applied
    case Err(_) =>
      if IsSuperseded(s, r) && (r.key in s.archived ==> s.archived[r.key] == r) then Superseded else Refused
  }

  /** What it leaves. */
  function Replayed(s: State, r: Record): State {
    match ReplayOutcome(s, r)
    case Applied => s.(db := Apply(s.db, r).value, pending := s.pending - {r.key})
    case Superseded => s.(archived := s.archived[r.key := r], pending := s.pending - {r.key})
    case Refused => s
  }

  /** Listed keys that are still pending. */
  function Left(listed: seq<nat>, pending: map<nat, Record>, n: nat): nat
    requires n <= |listed|
  {
    if n == 0 then 0 else Left(listed, pending, n - 1) + if listed[n - 1] in pending then 1 else 0
  }

  lemma {:induction false} LeftUnchanged(listed: seq<nat>, before: map<nat, Record>, after: map<nat, Record>, n: nat)
    requires n <= |listed| && forall i :: 0 <= i < n ==> (listed[i] in before <==> listed[i] in after)
    ensures Left(listed, before, n) == Left(listed, after, n)
  {
    if n > 0 {
      LeftUnchanged(listed, before, after, n - 1);
    }
  }

  class Journal {
    var db: Database
    var pending: map<nat, Record>
    var archived: map<nat, Record>
    ghost var journalled: set<Record>
    /** Every state a stop could have left so far. */
    ghost var trace: seq<State>

    ghost function View(): State
      reads this
    {
      State(db, pending, archived, journalled)
    }

    ghost predicate Valid()
      reads this
    {
      Run(trace) && trace[|trace| - 1] == View()
    }

    constructor ()
      ensures Valid() && View() == START
    {
      db, pending, archived, journalled := Database(map[], []), map[], map[], {};
      trace := [START];
    }

    /** The change just made was one of the steps. */
    ghost method Note()
      requires Run(trace) && Step(trace[|trace| - 1], View())
      modifies this`trace
      ensures Valid() && old(trace) <= trace
    {
      Extend(trace, View());
      trace := trace + [View()];
    }

    method Write(r: Record) returns (error: Option<Error>)
      requires Valid()
      modifies this
      ensures Valid() && old(trace) <= trace
      ensures error == if !Writable(r) then Some(Invalid)
                       else if r.key in old(pending) && old(pending)[r.key] != r then Some(Conflict) else None
      ensures View() == if error == None then old(View()).(pending := old(pending)[r.key := r], journalled := old(journalled) + {r})
                        else old(View())
    {
      if r.verdict !in {0, 1} || r.expected < 0 || !r.canonical {
        return Some(Invalid);
      }
      if r.key in pending && pending[r.key] != r {
        return Some(Conflict);
      }
      pending := pending[r.key := r];
      journalled := journalled + {r};
      assert WriteRecord(trace[|trace| - 1], View(), r);
      Note();
      error := None;
    }

    method ApplyFeedback(r: Record) returns (error: Option<Error>)
      requires Valid()
      modifies this
      ensures Valid() && old(trace) <= trace
      ensures match Apply(old(db), r)
              case Ok(after) => error == None && View() == old(View()).(db := after)
              case Err(e) => error == Some(e) && View() == old(View())
    {
      if r.verdict !in {0, 1} || r.expected < 0 || !r.explicit {
        return Some(Invalid);
      }
      var i := Lookup(r.key);
      if i < |db.events| {
        return if db.events[i].record != r then Some(Conflict) else None;
      }
      if r.asset !in db.assets || db.assets[r.asset].revision != r.expected {
        return Some(Conflict);
      }
      var resulting: nat := r.expected + 1;
      db := Database(db.assets[r.asset := Asset(Some(r.verdict), resulting)], db.events + [Event(r, resulting)]);
      assert ApplyRecord(trace[|trace| - 1], View(), r);
      Note();
      error := None;
    }

    method Lookup(key: nat) returns (i: nat)
      ensures i <= |db.events| && (i < |db.events| <==> IsStored(db.events, key))
      ensures i < |db.events| ==> i == Stored(db.events, key)
    {
      i := 0;
      while i < |db.events| && db.events[i].record.key != key
        invariant i <= |db.events| && forall j :: 0 <= j < i ==> db.events[j].record.key != key
      {
        i := i + 1;
      }
    }

    /** Removes the file of a record whose transaction is committed. */
    method Forget(r: Record)
      requires Valid() && r.key in pending && pending[r.key] == r && IsApplied(View(), r)
      modifies this
      ensures Valid() && old(trace) <= trace && View() == old(View()).(pending := old(pending) - {r.key})
    {
      pending := pending - {r.key};
      assert ForgetKey(trace[|trace| - 1], View(), r.key);
      Note();
    }

    /** Journal first, then the database, then the journal file goes. */
    method Submit(r: Record) returns (error: Option<Error>)
      requires Valid()
      modifies this
      ensures Valid() && old(trace) <= trace
      ensures error == None ==>
        && Apply(old(db), r).Ok?
        && View() == old(View()).(db := Apply(old(db), r).value, pending := old(pending) - {r.key}, journalled := old(journalled) + {r})
      ensures error.Some? && Writable(r) && (r.key in old(pending) ==> old(pending)[r.key] == r) ==>
        && Apply(old(db), r) == Err(error.value)
        && View() == old(View()).(pending := old(pending)[r.key := r], journalled := old(journalled) + {r})
      ensures !Writable(r) || (r.key in old(pending) && old(pending)[r.key] != r) ==> error.Some? && View() == old(View())
    {
      error := Write(r);
      if error.Some? {
        return;
      }
      error := ApplyFeedback(r);
      if error.Some? {
        return;
      }
      AppliedIsThere(old(db), db, View(), r);
      Forget(r);
      assert pending == old(pending) - {r.key};
    }

    /** One file of a replay, which is written again to no effect; a record overtaken by later feedback moves to the archive. */
    method ReplayOne(key: nat) returns (outcome: Outcome)
      requires Valid() && key in pending
      modifies this
      ensures Valid() && old(trace) <= trace
      ensures outcome == ReplayOutcome(old(View()), old(pending)[key])
      ensures View() == Replayed(old(View()), old(pending)[key])
      ensures pending == if outcome == Refused then old(pending) else old(pending) - {key}
    {
      PendingIsKeyed(View(), trace);
      var r := pending[key];
      var error := ApplyFeedback(r);
      if error == None {
        AppliedIsThere(old(db), db, View(), r);
        Forget(r);
        return Applied;
      }
      if error.value == Conflict && r.asset in db.assets && db.assets[r.asset].revision > r.expected {
        if key in archived && archived[key] != r {
          return Refused;
        }
        Archive(key);
        return Superseded;
      }
      outcome := Refused;
    }

    method Archive(key: nat)
      requires Valid() && key in pending && IsSuperseded(View(), pending[key])
      requires key in archived ==> archived[key] == pending[key]
      modifies this
      ensures Valid() && old(trace) <= trace
      ensures View() == old(View()).(archived := old(archived)[key := old(pending)[key]], pending := old(pending) - {key})
    {
      var r := pending[key];
      if key !in archived {
        archived := archived[key := r];
        assert ArchiveKey(trace[|trace| - 1], View(), key);
        Note();
      }
      assert archived == old(archived)[key := r];
      pending := pending - {key};
      assert DropKey(trace[|trace| - 1], View(), key);
      Note();
    }

    /** A pass over some of the files; those that could not be settled are exactly the ones still pending. */
    method Replay(listed: seq<nat>, unsafe: set<nat>) returns (applied: nat, superseded: nat, conflicts: nat)
      requires Valid() && forall i :: 0 <= i < |listed| ==> listed[i] in pending
      requires forall i, j :: 0 <= i < j < |listed| ==> listed[i] != listed[j]
      modifies this
      ensures Valid() && old(trace) <= trace
      ensures applied + superseded + conflicts == |listed|
      ensures conflicts == Left(listed, pending, |listed|)
      ensures forall i :: 0 <= i < |listed| && listed[i] in unsafe ==> listed[i] in pending
      ensures forall key :: key in old(pending) && key !in listed ==> key in pending
    {
      applied, superseded, conflicts := 0, 0, 0;
      var n := 0;
      while n < |listed|
        invariant n <= |listed| && Valid() && old(trace) <= trace
        invariant applied + superseded + conflicts == n && conflicts == Left(listed, pending, n)
        invariant forall i :: n <= i < |listed| ==> listed[i] in pending
        invariant forall i :: 0 <= i < n && listed[i] in unsafe ==> listed[i] in pending
        invariant forall key :: key in old(pending) && key !in listed ==> key in pending
      {
        ghost var before := pending;
        if listed[n] in unsafe {
          conflicts := conflicts + 1;
        } else {
          var outcome := ReplayOne(listed[n]);
          LeftUnchanged(listed, before, pending, n);
          match outcome
          case Applied => applied := applied + 1;
          case Superseded => superseded := superseded + 1;
          case Refused => conflicts := conflicts + 1;
        }
        n := n + 1;
      }
    }
  }

  lemma AppliedIsThere(before: Database, after: Database, s: State, r: Record)
    requires Apply(before, r) == Ok(after) && s.db == after
    ensures IsApplied(s, r)
  {
    if after == before {
      assert after.events[Stored(after.events, r.key)].record == r;
    } else {
      assert after.events[|before.events|].record == r;
    }
  }

  lemma PendingIsKeyed(s: State, trace: seq<State>)
    requires Run(trace) && trace[|trace| - 1] == s
    ensures forall key :: key in s.pending ==>
              s.pending[key].key == key && Writable(s.pending[key]) && s.pending[key] in s.journalled
  {
    RunKeepsInv(trace);
  }

  // ---------------------------------------------- what becomes of a piece of feedback

  /** A user's action on a known label, from a revision there can be. */
  predicate IsFeedback(r: Record) { (r.verdict == 0 || r.verdict == 1) && r.expected >= 0 && r.explicit }

  predicate IsNew(db: Database, r: Record) {
    forall i :: 0 <= i < |db.events| ==> db.events[i].record.key != r.key
  }

  /** New feedback counts exactly when it was given for the label as it stands; then it is one more event. */
  lemma NewFeedbackCountsIff(db: Database, r: Record)
    requires IsFeedback(r) && IsNew(db, r)
    ensures Apply(db, r).Ok? <==> r.asset in db.assets && db.assets[r.asset].revision == r.expected
    ensures Apply(db, r).Err? ==> Apply(db, r).error == Conflict
    ensures Apply(db, r).Ok? ==>
      var after := Apply(db, r).value;
      && |after.events| == |db.events| + 1 && after.events[..|db.events|] == db.events
      && after.events[|db.events|].record == r && after.events[|db.events|].resulting == r.expected + 1
      && after.assets.Keys == db.assets.Keys
      && after.assets[r.asset].revision == db.assets[r.asset].revision + 1 && after.assets[r.asset].verdict == Some(r.verdict)
      && forall a :: a in db.assets && a != r.asset ==> after.assets[a] == db.assets[a]
  {
  }

  /** Feedback under a key that is known changes nothing, and is refused unless it is the same. */
  lemma KnownFeedbackIsCompared(db: Database, r: Record, i: nat)
    requires Sound(db) && IsFeedback(r) && i < |db.events| && db.events[i].record.key == r.key
    ensures Apply(db, r) == if db.events[i].record == r then Ok(db) else Err(Conflict)
  {
    assert Stored(db.events, r.key) == i;
  }

  lemma OtherRecordsAreInvalid(db: Database, r: Record)
    ensures Apply(db, r) == Err(Invalid) <==> !IsFeedback(r)
  {
  }

  /** What a replay does with a record the database has not seen, by the label's revision. */
  lemma NewRecordReplayed(s: State, r: Record)
    requires IsFeedback(r) && IsNew(s.db, r) && r.key in s.pending && s.pending[r.key] == r
    requires r.key in s.archived ==> s.archived[r.key] == r
    ensures var t := Replayed(s, r);
            if r.asset !in s.db.assets || s.db.assets[r.asset].revision < r.expected then t == s
            else if s.db.assets[r.asset].revision == r.expected
            then r.key !in t.pending && t.archived == s.archived && t.db.assets[r.asset] == Asset(Some(r.verdict), s.db.assets[r.asset].revision + 1)
            else r.key !in t.pending && t.db == s.db && r.key in t.archived && t.archived[r.key] == r
    ensures ReplayOutcome(s, r) == Superseded <==> r.asset in s.db.assets && s.db.assets[r.asset].revision > r.expected
    ensures ReplayOutcome(s, r) == Applied <==> r.asset in s.db.assets && s.db.assets[r.asset].revision == r.expected
    ensures forall key :: key != r.key ==>
              (key in Replayed(s, r).pending <==> key in s.pending) && (key in Replayed(s, r).archived <==> key in s.archived)
  {
    NewFeedbackCountsIff(s.db, r);
  }

  /** A record that was applied before the program stopped is only taken out of the journal. */
  lemma AppliedRecordReplayed(s: State, r: Record)
    requires Sound(s.db) && IsFeedback(r) && IsApplied(s, r)
    ensures ReplayOutcome(s, r) == Applied && Replayed(s, r) == s.(pending := s.pending - {r.key})
  {
    AppliedAgain(s, r);
  }

  /** Whatever cannot be feedback, or finds its key taken by another record in the archive, stays where it is. */
  lemma RefusedRecordStays(s: State, r: Record)
    ensures !IsFeedback(r) ==> ReplayOutcome(s, r) == Refused && Replayed(s, r) == s
    ensures Apply(s.db, r).Err? && r.key in s.archived && s.archived[r.key] != r ==>
              ReplayOutcome(s, r) == Refused && Replayed(s, r) == s
  {
  }

  /** The journal takes whatever has a label, a revision and canonical identifiers. */
  lemma JournalTakes(r: Record)
    ensures Writable(r) <==> (r.verdict == 0 || r.verdict == 1) && r.expected >= 0 && r.canonical
  {
  }

  ghost function StillThere(listed: seq<nat>, pending: map<nat, Record>, n: nat): set<nat>
    requires n <= |listed|
  {
    set i: nat | i < n && listed[i] in pending
  }

  /** The conflicts a replay reports are a count of files. */
  lemma {:induction false} LeftIsCount(listed: seq<nat>, pending: map<nat, Record>, n: nat)
    requires n <= |listed|
    ensures Left(listed, pending, n) == |StillThere(listed, pending, n)|
  {
    if n == 0 {
      assert StillThere(listed, pending, 0) == {};
    } else {
      LeftIsCount(listed, pending, n - 1);
      var more: set<nat> := if listed[n - 1] in pending then {n - 1} else {};
      assert StillThere(listed, pending, n) == StillThere(listed, pending, n - 1) + more;
      assert StillThere(listed, pending, n - 1) !! more;
    }
  }
}
