/**
  The append-only log of media operations: what an event must satisfy to be
  written, and what every log written that way satisfies.
 */
module Lineage {
  import opened Wrappers

  datatype Event = Event(
    operation: string, sequence: int, producer: string, generation: string, phase: string,
    source: Option<string>, destination: Option<string>,
    sourcePath: string, destinationPath: string, evidence: nat)

  datatype Error = Malformed | Conflicting | MissingPhase | IdentityChanged | DestinationChanged

  const PHASES := ["planned", "destination_verified", "published", "source_cleaned"]

  predicate IsHex(c: char) { '0' <= c <= '9' || 'a' <= c <= 'f' }

  predicate IsDigest(s: string) { |s| == 64 && forall i :: 0 <= i < |s| ==> IsHex(s[i]) }

  /** The canonical text of a UUID. */
  predicate IsUuid(s: string) {
    |s| == 36 && forall i :: 0 <= i < |s| ==> if i in {8, 13, 18, 23} then s[i] == '-' else IsHex(s[i])
  }

  predicate WellFormed(v: Event) {
    && IsUuid(v.operation) && IsUuid(v.generation)
    && 0 <= v.sequence < |PHASES| && v.phase == PHASES[v.sequence]
    && v.producer in {"video_filter", "video_compression"}
    && v.source.Some? && IsDigest(v.source.value)
    && (v.destination == None ==> v.sequence == 0)
    && (v.destination.Some? ==> IsDigest(v.destination.value))
    && v.sourcePath != "" && v.destinationPath != ""
  }

  predicate At(e: Event, operation: string, sequence: int) {
    e.operation == operation && e.sequence == sequence
  }

  predicate Has(log: seq<Event>, operation: string, sequence: int) {
    exists i :: 0 <= i < |log| && At(log[i], operation, sequence)
  }

  function Find(log: seq<Event>, operation: string, sequence: int): (i: nat)
    requires Has(log, operation, sequence)
    ensures i < |log| && At(log[i], operation, sequence)
    ensures forall j :: 0 <= j < i ==> !At(log[j], operation, sequence)
  {
    if At(log[0], operation, sequence) then 0
    else
      assert Has(log[1..], operation, sequence) by {
        var i :| 0 <= i < |log| && At(log[i], operation, sequence);
        assert At(log[1..][i - 1], operation, sequence);
      }
      1 + Find(log[1..], operation, sequence)
  }

  predicate SameIdentity(a: Event, b: Event) {
    && a.producer == b.producer && a.generation == b.generation && a.source == b.source
    && a.sourcePath == b.sourcePath && a.destinationPath == b.destinationPath
  }

  /** Why a new event may not follow the log, if it may not. */
  function Refusal(log: seq<Event>, v: Event): Option<Error> {
    if v.sequence <= 0 then None
    else if !Has(log, v.operation, v.sequence - 1) then Some(MissingPhase)
    else
      var previous := log[Find(log, v.operation, v.sequence - 1)];
      if !SameIdentity(previous, v) then Some(IdentityChanged)
      else if v.sequence > 1 && previous.destination != v.destination then Some(DestinationChanged)
      else None
  }

  /** The log after an append: unchanged by a replay, refused or one event longer. */
  function Append(log: seq<Event>, v: Event): Result<seq<Event>, Error> {
    if !WellFormed(v) then Err(Malformed)
    else if Has(log, v.operation, v.sequence) then
      if log[Find(log, v.operation, v.sequence)] == v then Ok(log) else Err(Conflicting)
    else
      match Refusal(log, v)
      case Some(error) => Err(error)
      case None => Ok(log + [v])
  }

  // -------------------------------------------------------------- the chains

  /** Two events of one operation tell one story, and are not for the same phase. */
  predicate Agree(a: Event, b: Event) {
    a.operation == b.operation ==>
      && a.sequence != b.sequence && SameIdentity(a, b)
      && (a.sequence >= 1 && b.sequence >= 1 ==> a.destination == b.destination)
  }

  /** Every event but an operation's first has the one before it. */
  predicate Rooted(log: seq<Event>) {
    forall i :: 0 <= i < |log| && log[i].sequence > 0 ==> Has(log, log[i].operation, log[i].sequence - 1)
  }

  predicate Agreed(log: seq<Event>) {
    forall i, j :: 0 <= i < j < |log| ==> Agree(log[i], log[j])
  }

  predicate Chained(log: seq<Event>) {
    (forall i :: 0 <= i < |log| ==> WellFormed(log[i])) && Agreed(log) && Rooted(log)
  }

  lemma AppendKeepsChains(log: seq<Event>, v: Event)
    requires Chained(log) && Append(log, v).Ok?
    ensures Chained(Append(log, v).value)
  {
    if Append(log, v).value != log {
      AppendStaysRooted(log, v);
      forall i | 0 <= i < |log| ensures Agree(log[i], v) {
        if log[i].operation == v.operation {
          AgreesWithPrevious(log, v, i);
        }
      }
    }
  }

  lemma AppendStaysRooted(log: seq<Event>, v: Event)
    requires Rooted(log) && (v.sequence > 0 ==> Has(log, v.operation, v.sequence - 1))
    ensures Rooted(log + [v])
  {
    var after := log + [v];
    forall i | 0 <= i < |after| && after[i].sequence > 0 ensures Has(after, after[i].operation, after[i].sequence - 1) {
      assert i < |log| ==> after[i] == log[i];
      var k := Find(log, after[i].operation, after[i].sequence - 1);
      assert after[k] == log[k];
    }
  }

  lemma AgreesWithPrevious(log: seq<Event>, v: Event, i: nat)
    requires Chained(log) && 0 <= v.sequence && Refusal(log, v) == None && !Has(log, v.operation, v.sequence)
    requires i < |log| && log[i].operation == v.operation
    ensures Agree(log[i], v)
  {
    var n := log[i].sequence;
    assert n >= 0 by { assert WellFormed(log[i]); }
    assert At(log[i], v.operation, n);
    if v.sequence <= n {
      EarlierIsThere(log, v.operation, n, v.sequence, i);
      assert false;
    }
    var k := Find(log, v.operation, v.sequence - 1);
    assert i == k || Agree(log[if i < k then i else k], log[if i < k then k else i]);
  }

  /** An operation with any event has every earlier phase too. */
  lemma {:induction false} EarlierIsThere(log: seq<Event>, operation: string, sequence: int, earlier: int, i: nat)
    requires Chained(log) && i < |log| && At(log[i], operation, sequence) && 0 <= earlier <= sequence
    ensures Has(log, operation, earlier)
    decreases sequence - earlier
  {
    if earlier < sequence {
      assert log[i].sequence > 0;
      var k := Find(log, log[i].operation, log[i].sequence - 1);
      EarlierIsThere(log, operation, sequence - 1, earlier, k);
    }
  }

  /** How far an operation has come. */
  function Reached(log: seq<Event>, operation: string): (n: nat)
    ensures n <= 4
  {
    if !Has(log, operation, 0) then 0
    else if !Has(log, operation, 1) then 1
    else if !Has(log, operation, 2) then 2
    else if !Has(log, operation, 3) then 3
    else 4
  }

  /** The events of an operation are a prefix of the four phases. */
  lemma ReachedIsPrefix(log: seq<Event>, operation: string, sequence: int)
    requires Chained(log)
    ensures Has(log, operation, sequence) <==> 0 <= sequence < Reached(log, operation)
  {
    if Has(log, operation, sequence) {
      var i := Find(log, operation, sequence);
      assert WellFormed(log[i]);
      forall earlier | 0 <= earlier <= sequence ensures Has(log, operation, earlier) {
        EarlierIsThere(log, operation, sequence, earlier, i);
      }
    }
  }

  lemma TwoAgree(log: seq<Event>, i: nat, j: nat)
    requires Chained(log) && i < |log| && j < |log| && log[i].operation == log[j].operation
    ensures SameIdentity(log[i], log[j])
    ensures log[i].sequence >= 1 && log[j].sequence >= 1 ==> log[i].destination == log[j].destination
    ensures log[i].sequence == log[j].sequence ==> i == j
  {
    assert i == j || Agree(log[if i < j then i else j], log[if i < j then j else i]);
  }

  /** All of them name one source, one destination and one output. */
  lemma OperationIsPrefix(log: seq<Event>, operation: string, sequence: int)
    requires Chained(log) && 0 <= sequence < Reached(log, operation)
    ensures Has(log, operation, sequence) && Has(log, operation, 0)
    ensures var e := log[Find(log, operation, sequence)];
            && 0 <= sequence < |PHASES| && e.phase == PHASES[sequence] && SameIdentity(log[Find(log, operation, 0)], e)
            && (sequence >= 1 ==> e.destination.Some? && Has(log, operation, 1)
                                  && e.destination == log[Find(log, operation, 1)].destination)
  {
    ReachedIsPrefix(log, operation, sequence);
    ReachedIsPrefix(log, operation, 0);
    var i := Find(log, operation, sequence);
    assert WellFormed(log[i]);
    TwoAgree(log, Find(log, operation, 0), i);
    if sequence >= 1 {
      ReachedIsPrefix(log, operation, 1);
      TwoAgree(log, Find(log, operation, 1), i);
    }
  }

  /** Writing an event that is already there, or the same event twice, changes nothing. */
  lemma ReplayIsIdempotent(log: seq<Event>, v: Event)
    requires Append(log, v).Ok?
    ensures Append(Append(log, v).value, v) == Append(log, v)
    ensures log <= Append(log, v).value
  {
    var after := Append(log, v).value;
    if after != log {
      assert At(after[|log|], v.operation, v.sequence);
      var k := Find(after, v.operation, v.sequence);
      assert forall j :: 0 <= j < |log| ==> after[j] == log[j];
    }
  }

  // ----------------------------------------------------- recording an operation

  /** What the files of an operation look like when they are looked at: digests of stable content. */
  datatype Files = Files(sourceExists: bool, sourceUnchanged: bool, destination: Option<string>, identityMatches: bool)

  datatype Outcome = Recorded | AlreadyRecorded | Refused

  function Max(a: int, b: int): int { if a < b then b else a }

  /** Publication is refused for a changed source, a changed output, or a source that vanished too early. */
  function RecordedPublication(log: seq<Event>, operation: string, files: Files): Outcome {
    if !Has(log, operation, 0) || (files.sourceExists && !files.sourceUnchanged) then Refused
    else if !files.sourceExists && !Has(log, operation, 2) then Refused
    else if files.destination == None then Refused
    else if Has(log, operation, 1)
            && (log[Find(log, operation, 1)].destination != files.destination || !files.identityMatches) then Refused
    else if Has(log, operation, 2) then AlreadyRecorded
    else Recorded
  }

  /** The event that follows the first one of an operation. */
  function Next(start: Event, sequence: nat, destination: string, evidence: nat): (v: Event)
    requires WellFormed(start) && sequence in {1, 2} && IsDigest(destination)
    ensures WellFormed(v) && At(v, start.operation, sequence) && SameIdentity(start, v) && v.destination == Some(destination)
  {
    start.(sequence := sequence, phase := PHASES[sequence], destination := Some(destination), evidence := evidence)
  }

  /** One more event takes an operation one phase further. */
  lemma Progress(longer: seq<Event>, log: seq<Event>, operation: string, sequence: int, v: Event)
    requires Chained(log) && Chained(longer) && longer == log + [v] && At(v, operation, sequence)
    requires Reached(log, operation) == sequence <= 3
    ensures Reached(longer, operation) == sequence + 1
  {
    forall k | 0 <= k <= 3 ensures Has(longer, operation, k) <==> k <= sequence {
      ReachedIsPrefix(log, operation, k);
      if k < sequence {
        Stable(log, longer, operation, k);
      } else if k == sequence {
        assert At(longer[|log|], operation, k);
      }
    }
  }

  /** The event for an operation's next phase is not refused. */
  lemma NextIsAppended(log: seq<Event>, operation: string, sequence: int, v: Event)
    requires Chained(log) && sequence in {1, 2, 3} && At(v, operation, sequence) && WellFormed(v)
    requires Reached(log, operation) == sequence
    requires Has(log, operation, 0) && SameIdentity(log[Find(log, operation, 0)], v)
    requires sequence > 1 ==> Has(log, operation, 1) && log[Find(log, operation, 1)].destination == v.destination
    ensures Append(log, v) == Ok(log + [v])
  {
    hide WellFormed;
    ReachedIsPrefix(log, operation, sequence);
    ReachedIsPrefix(log, operation, sequence - 1);
    OperationIsPrefix(log, operation, sequence - 1);
  }

  lemma NextIsReached(log: seq<Event>, operation: string, sequence: int, v: Event)
    requires Chained(log) && Chained(log + [v]) && sequence in {1, 2, 3} && At(v, operation, sequence)
    requires Reached(log, operation) == sequence
    requires Has(log, operation, 0) && SameIdentity(log[Find(log, operation, 0)], v)
    ensures var longer := log + [v];
            && Reached(longer, operation) == sequence + 1
            && Has(longer, operation, 0) && SameIdentity(longer[Find(longer, operation, 0)], v)
            && Has(longer, operation, 1) && longer[Find(longer, operation, 1)].destination == v.destination
  {
    var longer := log + [v];
    Progress(longer, log, operation, sequence, v);
    ReachedIsPrefix(longer, operation, 1);
    Stable(log, longer, operation, 0);
    assert longer[|log|] == v;
    TwoAgree(longer, Find(longer, operation, 1), |log|);
  }

  class Log {
    var events: seq<Event>

    ghost predicate Valid()
      reads this
    {
      Chained(events)
    }

    constructor ()
      ensures Valid() && events == []
    {
      events := [];
    }

    method Lookup(operation: string, sequence: int) returns (i: Option<nat>)
      ensures i.Some? <==> Has(events, operation, sequence)
      ensures i.Some? ==> i.value == Find(events, operation, sequence)
    {
      var k := 0;
      while k < |events|
        invariant k <= |events|
        invariant forall j :: 0 <= j < k ==> !At(events[j], operation, sequence)
      {
        if At(events[k], operation, sequence) {
          return Some(k);
        }
        k := k + 1;
      }
      i := None;
    }

    method AppendEvent(v: Event) returns (r: Option<Error>)
      requires Valid()
      modifies this
      ensures Valid()
      ensures match Append(old(events), v)
              case Ok(after) => r == None && events == after
              case Err(error) => r == Some(error) && events == old(events)
    {
      if Append(events, v).Ok? {
        AppendKeepsChains(events, v);
      }
      if !WellFormed(v) {
        return Some(Malformed);
      }
      var existing := Lookup(v.operation, v.sequence);
      if existing.Some? {
        return if events[existing.value] != v then Some(Conflicting) else None;
      }
      if v.sequence > 0 {
        var found := Lookup(v.operation, v.sequence - 1);
        if found == None {
          return Some(MissingPhase);
        }
        var previous := events[found.value];
        if !SameIdentity(previous, v) {
          return Some(IdentityChanged);
        }
        if v.sequence > 1 && previous.destination != v.destination {
          return Some(DestinationChanged);
        }
      }
      events := events + [v];
      r := None;
    }

    /** Adds the next event of an operation that has come just that far. */
    method Advance(operation: string, sequence: int, v: Event)
      requires Valid() && sequence in {1, 2, 3} && At(v, operation, sequence) && WellFormed(v)
      requires Reached(events, operation) == sequence
      requires Has(events, operation, 0) && SameIdentity(events[Find(events, operation, 0)], v)
      requires sequence > 1 ==> Has(events, operation, 1) && events[Find(events, operation, 1)].destination == v.destination
      modifies this
      ensures Valid() && events == old(events) + [v]
      ensures Reached(events, operation) == sequence + 1
      ensures Has(events, operation, 0) && SameIdentity(events[Find(events, operation, 0)], v)
      ensures Has(events, operation, 1) && events[Find(events, operation, 1)].destination == v.destination
    {
      NextIsAppended(events, operation, sequence, v);
      AppendKeepsChains(events, v);
      NextIsReached(events, operation, sequence, v);
      var refused := AppendEvent(v);
      assert refused == None;
    }

    method WriteNext(start: Event, sequence: nat, digest: string, evidence: nat)
      requires Valid() && sequence in {1, 2} && WellFormed(start) && IsDigest(digest)
      requires Reached(events, start.operation) == sequence && start == events[Find(events, start.operation, 0)]
      requires sequence == 2 ==> events[Find(events, start.operation, 1)].destination == Some(digest)
      modifies this
      ensures Valid() && old(events) <= events && Reached(events, start.operation) == sequence + 1
      ensures start == events[Find(events, start.operation, 0)]
      ensures Has(events, start.operation, 1) && events[Find(events, start.operation, 1)].destination == Some(digest)
    {
      Advance(start.operation, sequence, Next(start, sequence, digest, evidence));
      Stable(old(events), events, start.operation, 0);
    }

    method WriteUpToPublished(start: Event, digest: string, evidence: nat)
      requires Valid() && WellFormed(start) && IsDigest(digest)
      requires Reached(events, start.operation) in {1, 2} && start == events[Find(events, start.operation, 0)]
      requires Reached(events, start.operation) == 2 ==>
                 events[Find(events, start.operation, 1)].destination == Some(digest)
      modifies this
      ensures Valid() && old(events) <= events && Reached(events, start.operation) == 3
      ensures Has(events, start.operation, 1) && events[Find(events, start.operation, 1)].destination == Some(digest)
    {
      if Reached(events, start.operation) == 1 {
        WriteNext(start, 1, digest, evidence);
      }
      WriteNext(start, 2, digest, evidence);
    }

    /**
      Records that the destination was verified and published. Afterwards, if it
      did not refuse, the log has the digest the destination was found with.
     */
    method RecordPublished(operation: string, files: Files, evidence: nat) returns (done: Outcome)
      requires Valid() && (files.destination.Some? ==> IsDigest(files.destination.value))
      modifies this
      ensures Valid() && old(events) <= events
      ensures done == RecordedPublication(old(events), operation, files)
      ensures done != Refused ==>
        && Reached(events, operation) == Max(3, Reached(old(events), operation))
        && Has(events, operation, 1) && events[Find(events, operation, 1)].destination == files.destination
      ensures done != Recorded ==> events == old(events)
    {
      var first := Lookup(operation, 0);
      if first == None || (files.sourceExists && !files.sourceUnchanged) {
        return Refused;
      }
      var start := events[first.value];
      assert WellFormed(start);
      var verified := Lookup(operation, 1);
      var published := Lookup(operation, 2);
      ReachedIsPrefix(events, operation, 1);
      ReachedIsPrefix(events, operation, 2);
      if (!files.sourceExists && published == None) || files.destination == None {
        return Refused;
      }
      if verified.Some? && (events[verified.value].destination != files.destination || !files.identityMatches) {
        return Refused;
      }
      if published.Some? {
        return AlreadyRecorded;
      }
      WriteUpToPublished(start, files.destination.value, evidence);
      done := Recorded;
    }

    /** Records the removal of the source, once, only after publication and only while the output is intact. */
    method RecordSourceRemoved(operation: string, files: Files) returns (done: Outcome)
      requires Valid()
      modifies this
      ensures Valid() && old(events) <= events
      ensures done == AlreadyRecorded <==> Reached(old(events), operation) == 4
      ensures done == Recorded <==>
        && Reached(old(events), operation) == 3 && !files.sourceExists
        && files.destination.Some? && files.destination == old(events)[Find(old(events), operation, 2)].destination
      ensures done == Recorded ==> Reached(events, operation) == 4
      ensures done != Recorded ==> events == old(events)
    {
      var published := Lookup(operation, 2);
      ReachedIsPrefix(events, operation, 2);
      ReachedIsPrefix(events, operation, 3);
      if published == None {
        return Refused;
      }
      var cleaned := Lookup(operation, 3);
      if cleaned.Some? {
        return AlreadyRecorded;
      }
      if files.sourceExists || files.destination == None || files.destination != events[published.value].destination {
        return Refused;
      }
      assert WellFormed(events[published.value]);
      OperationIsPrefix(events, operation, 2);
      Advance(operation, 3, events[published.value].(sequence := 3, phase := PHASES[3]));
      done := Recorded;
    }
  }

  /** Looking up an event gives the same answer in a longer log. */
  lemma Stable(log: seq<Event>, longer: seq<Event>, operation: string, sequence: int)
    requires log <= longer && Has(log, operation, sequence)
    ensures Has(longer, operation, sequence) && longer[Find(longer, operation, sequence)] == log[Find(log, operation, sequence)]
  {
    var k := Find(log, operation, sequence);
    assert At(longer[k], operation, sequence);
    var j := Find(longer, operation, sequence);
    assert j < |log| ==> log[j] == longer[j];
  }

  // ------------------------------------------------------- what exactly is accepted

  /** An event new to its operation is written exactly if it is the next phase and tells the same story. */
  lemma NewEventIsAcceptedIff(log: seq<Event>, v: Event)
    requires Chained(log) && WellFormed(v) && Reached(log, v.operation) <= v.sequence
    ensures Append(log, v) == Ok(log + [v]) <==>
      && v.sequence == Reached(log, v.operation)
      && (forall i :: 0 <= i < |log| && log[i].operation == v.operation ==>
            && log[i].producer == v.producer && log[i].generation == v.generation && log[i].source == v.source
            && log[i].sourcePath == v.sourcePath && log[i].destinationPath == v.destinationPath
            && (log[i].sequence >= 1 ==> log[i].destination == v.destination))
    ensures Append(log, v).Err? || Append(log, v) == Ok(log + [v])
  {
    hide WellFormed;
    var n := Reached(log, v.operation);
    ReachedIsPrefix(log, v.operation, v.sequence);
    ReachedIsPrefix(log, v.operation, v.sequence - 1);
    if v.sequence == n && n > 0 {
      var k := Find(log, v.operation, n - 1);
      forall i | 0 <= i < |log| && log[i].operation == v.operation
        ensures SameIdentity(log[i], log[k]) && (log[i].sequence >= 1 && n > 1 ==> log[i].destination == log[k].destination)
        ensures 0 <= log[i].sequence < n
      {
        TwoAgree(log, i, k);
        assert At(log[i], v.operation, log[i].sequence);
        ReachedIsPrefix(log, v.operation, log[i].sequence);
      }
    }
    if n == 0 {
      forall i | 0 <= i < |log| ensures log[i].operation != v.operation {
        if log[i].operation == v.operation {
          assert At(log[i], v.operation, log[i].sequence);
          ReachedIsPrefix(log, v.operation, log[i].sequence);
        }
      }
    }
  }

  /** An event for a phase the operation has is accepted exactly as a replay of what is there. */
  lemma KnownEventIsCompared(log: seq<Event>, v: Event, i: nat)
    requires Chained(log) && WellFormed(v) && i < |log| && At(log[i], v.operation, v.sequence)
    ensures Append(log, v) == if log[i] == v then Ok(log) else Err(Conflicting)
  {
    TwoAgree(log, i, Find(log, v.operation, v.sequence));
  }

  /** Publication is recorded, or found recorded, exactly under these conditions on the files. */
  lemma PublicationIsRecordedIff(log: seq<Event>, operation: string, files: Files)
    requires Chained(log)
    ensures var done, n := RecordedPublication(log, operation, files), Reached(log, operation);
            && (done != Refused <==>
                  && n >= 1 && files.destination.Some?
                  && (if files.sourceExists then files.sourceUnchanged else n >= 3)
                  && (n >= 2 ==> files.identityMatches && Has(log, operation, 1)
                                 && log[Find(log, operation, 1)].destination == files.destination))
            && (done == AlreadyRecorded ==> n >= 3) && (done == Recorded ==> n <= 2)
  {
    ReachedIsPrefix(log, operation, 0);
    ReachedIsPrefix(log, operation, 1);
    ReachedIsPrefix(log, operation, 2);
  }

  const HEX: set<char> := {'0', '1', '2', '3', '4', '5', '6', '7', '8', '9', 'a', 'b', 'c', 'd', 'e', 'f'}

  lemma HexIff(c: char)
    ensures IsHex(c) <==> c in HEX
  {
    var n := c as int;
    assert '0' as int == 48 && '9' as int == 57 && 'a' as int == 97 && 'f' as int == 102;
    if 48 <= n <= 57 {
      assert c in {48 as char, 49 as char, 50 as char, 51 as char, 52 as char, 53 as char, 54 as char, 55 as char, 56 as char, 57 as char};
    } else if 97 <= n <= 102 {
      assert c in {97 as char, 98 as char, 99 as char, 100 as char, 101 as char, 102 as char};
    }
  }

  /** What identifiers and digests look like: lower-case digits, and dashes where they belong. */
  lemma CanonicalIff(s: string)
    ensures IsUuid(s) <==>
      && |s| == 36 && s[8] == s[13] == s[18] == s[23] == '-'
      && forall i :: 0 <= i < 36 && i != 8 && i != 13 && i != 18 && i != 23 ==> s[i] in HEX
    ensures IsDigest(s) <==> |s| == 64 && forall i :: 0 <= i < 64 ==> s[i] in HEX
  {
    hide IsHex;
    forall i | 0 <= i < |s| ensures IsHex(s[i]) <==> s[i] in HEX {
      HexIff(s[i]);
    }
  }

  /** An event is well formed exactly so. */
  lemma WellFormedIff(v: Event)
    requires IsUuid(v.operation) && IsUuid(v.generation)
    ensures WellFormed(v) <==>
      && (v.producer == "video_filter" || v.producer == "video_compression")
      && v.source.Some? && IsDigest(v.source.value) && v.sourcePath != "" && v.destinationPath != ""
      && (if v.sequence == 0 then v.phase == "planned" && (v.destination.Some? ==> IsDigest(v.destination.value))
          else
            && v.destination.Some? && IsDigest(v.destination.value)
            && (v.phase == "destination_verified" || v.phase == "published" || v.phase == "source_cleaned")
            && v.sequence == (if v.phase == "destination_verified" then 1 else if v.phase == "published" then 2 else 3))
  {
  }

  /** The log can take the next event of an operation, and then the one after it. */
  predicate Comes(log: seq<Event>, sequence: int, v: Event) {
    && Chained(log) && Reached(log, v.operation) == sequence && sequence in {1, 2, 3}
    && Has(log, v.operation, 0) && SameIdentity(log[Find(log, v.operation, 0)], v)
    && (sequence > 1 ==> Has(log, v.operation, 1) && log[Find(log, v.operation, 1)].destination == v.destination)
  }

  lemma OneMorePhase(log: seq<Event>, sequence: int, v: Event, next: Event)
    requires Comes(log, sequence, v) && WellFormed(v) && v.sequence == sequence
    requires next.operation == v.operation && SameIdentity(v, next) && next.destination == v.destination
    ensures Append(log, v) == Ok(log + [v]) && (sequence < 3 ==> Comes(log + [v], sequence + 1, next))
  {
    hide WellFormed;
    NextIsAppended(log, v.operation, sequence, v);
    AppendKeepsChains(log, v);
    NextIsReached(log, v.operation, sequence, v);
  }

  lemma FirstPhase(start: Event, next: Event)
    requires WellFormed(start) && start.sequence == 0 && next.operation == start.operation && SameIdentity(start, next)
    ensures Append([], start) == Ok([start]) && Comes([start], 1, next)
  {
    hide WellFormed;
    assert [] + [start] == [start];
    AppendKeepsChains([], start);
    Progress([start], [], start.operation, 0, start);
    assert At([start][0], start.operation, 0);
  }

  /** Every operation can be taken through its four phases. */
  lemma WholeOperationIsAccepted(start: Event, digest: string, evidence: nat)
    requires WellFormed(start) && start.sequence == 0 && IsDigest(digest)
    ensures var verified := start.(sequence := 1, phase := "destination_verified", destination := Some(digest), evidence := evidence);
            var published := verified.(sequence := 2, phase := "published");
            var cleaned := verified.(sequence := 3, phase := "source_cleaned");
            && Append([], start) == Ok([start])
            && Append([start], verified) == Ok([start, verified])
            && Append([start, verified], published) == Ok([start, verified, published])
            && Append([start, verified, published], cleaned) == Ok([start, verified, published, cleaned])
  {
    hide Append, Comes, IsUuid, IsDigest;
    var verified := start.(sequence := 1, phase := "destination_verified", destination := Some(digest), evidence := evidence);
    var published := verified.(sequence := 2, phase := "published");
    var cleaned := verified.(sequence := 3, phase := "source_cleaned");
    assert [start] + [verified] == [start, verified];
    assert [start, verified] + [published] == [start, verified, published];
    assert [start, verified, published] + [cleaned] == [start, verified, published, cleaned];
    FirstPhase(start, verified);
    OneMorePhase([start], 1, verified, published);
    OneMorePhase([start, verified], 2, published, cleaned);
    OneMorePhase([start, verified, published], 3, cleaned, cleaned);
  }
}
