/**
  Classification transfer: a resumable move with a hard-link witness.

  `State` is what survives a stop: three file names, the bytes behind each
  inode, the operation row and the number of lineage events. `ProgramStep`
  lists every effect `advance_transfer` may have; `OtherStep` what anything
  else may do between two effects. The class at the end is the routine
  itself, and proves that it moves only along program steps.
 */
module Transfer {
  import opened Wrappers

  datatype Place = Source | Target | Witness

  datatype Status = Planned | Verified | Published | Cleaned | Conflict

  /** What `snapshot` and `hash_stable` together see: the file and its bytes. */
  datatype Snapshot = Snapshot(inode: nat, bytes: nat)

  datatype State = State(
    names: map<Place, nat>,
    data: map<nat, nat>,
    status: Status,
    stage: Option<Snapshot>,
    events: nat,
    published: Option<Snapshot>,
    copying: Option<nat>)

  function Look(names: map<Place, nat>, data: map<nat, nat>, p: Place): Option<Snapshot> {
    if p in names && names[p] in data then Some(Snapshot(names[p], data[names[p]])) else None
  }

  function At(s: State, p: Place): Option<Snapshot> {
    Look(s.names, s.data, p)
  }

  predicate SameFile(s: State, p: Place, q: Place) {
    p in s.names && q in s.names && s.names[p] == s.names[q]
  }

  predicate WellFormed(s: State) {
    s.names.Values <= s.data.Keys
  }

  // ---------------------------------------------------------------- effects

  /** The witness is created exclusively, as a new and still incomplete file. */
  predicate OpenWitness(origin: Snapshot, s: State, t: State) {
    && s.status == Planned && s.copying == None
    && Target !in s.names && Witness !in s.names && At(s, Source) == Some(origin)
    && t.copying.Some? && t.copying.value !in s.data
    && t.copying.value in t.data
    && t == s.(names := s.names[Witness := t.copying.value],
               data := s.data[t.copying.value := t.data[t.copying.value]], copying := t.copying)
  }

  /** Any prefix of the copy may be on disk when the process stops. */
  predicate CopyMore(s: State, t: State) {
    && s.status == Planned && s.copying.Some? && s.copying.value in s.data
    && s.copying.value in t.data
    && t == s.(data := s.data[s.copying.value := t.data[s.copying.value]])
  }

  predicate CommitVerified(origin: Snapshot, s: State, t: State) {
    && s.status == Planned && s.copying.Some?
    && At(s, Witness).Some? && At(s, Witness).value.bytes == origin.bytes
    && At(s, Source) == Some(origin)
    && t == s.(status := Verified, stage := At(s, Witness), copying := None)
  }

  predicate LinkReady(origin: Snapshot, s: State) {
    && s.status == Verified && s.stage.Some? && At(s, Witness) == s.stage
    && s.stage.value.bytes == origin.bytes
    && Target !in s.names
  }

  predicate LinkTarget(origin: Snapshot, s: State, t: State) {
    && LinkReady(origin, s)
    && t == s.(names := s.names[Target := s.names[Witness]])
  }

  /** Lineage phases one and two and the new status are one commit. */
  predicate CommitPublished(origin: Snapshot, s: State, t: State) {
    && s.status == Verified && s.stage.Some? && s.stage.value.bytes == origin.bytes
    && SameFile(s, Witness, Target) && At(s, Target).Some?
    && At(s, Source) == Some(origin)
    && s.events == 1
    && t == s.(status := Published, events := 3, published := At(s, Target))
  }

  predicate RemovalAllowed(origin: Snapshot, s: State) {
    && s.status == Published && s.events == 3
    && SameFile(s, Witness, Target)
    && s.stage.Some? && At(s, Target) == s.stage && s.stage.value.bytes == origin.bytes
    && (Source in s.names ==> At(s, Source) == Some(origin))
  }

  /** The last check of target and witness and the removal count as one step. */
  predicate RemoveSource(origin: Snapshot, s: State, t: State) {
    && RemovalAllowed(origin, s)
    && t == s.(names := s.names - {Source})
  }

  predicate CommitCleaned(s: State, t: State) {
    && s.status == Published && s.events == 3 && s.published.Some?
    && Source !in s.names
    && At(s, Target).Some? && At(s, Target).value.bytes == s.published.value.bytes
    && t == s.(status := Cleaned, events := 4)
  }

  predicate DropWitness(s: State, t: State) {
    s.status == Cleaned && t == s.(names := s.names - {Witness})
  }

  predicate MarkConflict(s: State, t: State) {
    s.status != Cleaned && t == s.(status := Conflict, copying := None)
  }

  /** A stop or an exception: only the running copy is forgotten. */
  predicate Stop(s: State, t: State) {
    t == s.(copying := None)
  }

  predicate ProgramStep(origin: Snapshot, s: State, t: State) {
    || OpenWitness(origin, s, t)
    || CopyMore(s, t)
    || CommitVerified(origin, s, t)
    || LinkTarget(origin, s, t)
    || CommitPublished(origin, s, t)
    || RemoveSource(origin, s, t)
    || CommitCleaned(s, t)
    || DropWitness(s, t)
    || MarkConflict(s, t)
    || Stop(s, t)
  }

  /**
    Anything else on the machine. It leaves the source file alone, and once
    the source is gone also the delivered target, and it does not publish the
    half-written witness. It may add, replace, edit and delete files at the
    two other names as it likes.
   */
  predicate OtherStep(origin: Snapshot, s: State, t: State) {
    && t == s.(names := t.names, data := t.data)
    && WellFormed(t)
    && s.data.Keys <= t.data.Keys
    && At(t, Source) == At(s, Source)
    && (Source in t.names <==> Source in s.names)
    && (Source !in s.names ==> At(t, Target) == At(s, Target))
    && (s.copying.Some? && Target in t.names ==> t.names[Target] != s.copying.value)
  }

  predicate Step(origin: Snapshot, s: State, t: State) {
    ProgramStep(origin, s, t) || OtherStep(origin, s, t)
  }

  ghost predicate Run(origin: Snapshot, run: seq<State>) {
    && |run| > 0
    && Initial(origin, run[0])
    && forall i :: 0 <= i < |run| - 1 ==> Step(origin, run[i], run[i + 1])
  }

  /** The state `classify` commits: a verified plan, nothing copied yet. */
  predicate Initial(origin: Snapshot, s: State) {
    && WellFormed(s) && s.status == Planned && s.events == 1
    && s.stage == None && s.published == None && s.copying == None
    && At(s, Source) == Some(origin)
  }

  // ----------------------------------------------------------------- safety

  /** The bytes that were classified can be read at the source or the target. */
  predicate BytesKept(origin: Snapshot, s: State) {
    || (At(s, Source).Some? && At(s, Source).value.bytes == origin.bytes)
    || (At(s, Target).Some? && At(s, Target).value.bytes == origin.bytes)
  }

  predicate Inv(origin: Snapshot, s: State) {
    && WellFormed(s)
    && (Source in s.names ==> At(s, Source) == Some(origin))
    && (Source !in s.names ==> At(s, Target).Some? && At(s, Target).value.bytes == origin.bytes)
    && (s.copying.Some? ==> s.status == Planned && s.copying.value != origin.inode)
    && (s.copying.Some? && Target in s.names ==> s.names[Target] != s.copying.value)
    && (s.status == Planned || s.status == Verified ==> s.events == 1 && Source in s.names)
    && (s.status == Published ==> s.events == 3 && s.published.Some?)
    && (s.status == Cleaned ==> s.events == 4 && Source !in s.names)
    && (Source !in s.names ==> s.events >= 3)
  }

  lemma StepKeepsInv(origin: Snapshot, s: State, t: State)
    requires Inv(origin, s) && Step(origin, s, t)
    ensures Inv(origin, t)
  {
  }

  lemma {:induction false} RunKeepsInv(origin: Snapshot, run: seq<State>, n: nat)
    requires Run(origin, run) && n < |run|
    ensures Inv(origin, run[n])
  {
    if n > 0 {
      RunKeepsInv(origin, run, n - 1);
      assert Step(origin, run[n - 1], run[n - 1 + 1]);
      StepKeepsInv(origin, run[n - 1], run[n]);
    }
  }

  /** However often the routine is stopped and resumed, the bytes are never lost. */
  lemma BytesNeverLost(origin: Snapshot, run: seq<State>, n: nat)
    requires Run(origin, run) && n < |run|
    ensures BytesKept(origin, run[n])
    ensures Source !in run[n].names ==> run[n].events >= 3 && At(run[n], Target).Some?
  {
    RunKeepsInv(origin, run, n);
  }

  /** The only step that takes the source away comes after every check. */
  lemma SourceRemovedOnlyWhenDelivered(origin: Snapshot, run: seq<State>, n: nat)
    requires Run(origin, run) && n + 1 < |run|
    requires Source in run[n].names && Source !in run[n + 1].names
    ensures var s := run[n];
            && s.status == Published && s.events == 3 && At(s, Source) == Some(origin)
            && Target in s.names && Witness in s.names && s.names[Target] == s.names[Witness]
            && s.stage.Some? && At(s, Target) == s.stage && s.stage.value.bytes == origin.bytes
    ensures run[n + 1] == run[n].(names := run[n].names - {Source})
  {
    assert Step(origin, run[n], run[n + 1]);
  }

  /** A file found at the target name keeps its name, its inode and its bytes. */
  lemma TargetNeverOverwritten(origin: Snapshot, run: seq<State>, n: nat)
    requires Run(origin, run) && n + 1 < |run|
    requires ProgramStep(origin, run[n], run[n + 1])
    requires Target in run[n].names
    ensures At(run[n + 1], Target) == At(run[n], Target) && At(run[n], Target).Some?
  {
    RunKeepsInv(origin, run, n);
  }

  function Rank(status: Status): nat {
    match status
    case Planned => 0
    case Verified => 1
    case Published => 2
    case Cleaned => 3
    case Conflict => 4
  }

  lemma {:induction false} StatusOnlyAdvances(origin: Snapshot, run: seq<State>, i: nat, j: nat)
    requires Run(origin, run) && i <= j < |run|
    ensures Rank(run[i].status) <= Rank(run[j].status)
    ensures run[i].status == Cleaned || run[i].status == Conflict ==> run[j].status == run[i].status
    decreases j - i
  {
    if i < j {
      assert Step(origin, run[i], run[i + 1]);
      StatusOnlyAdvances(origin, run, i + 1, j);
    }
  }

  // ------------------------------------------------------------ the routine

  /** What one evaluation of `check_gate` may answer. */
  datatype Gate = Open | JournalPending | Closed

  datatype Refusal =
    | NeedsReview | Deferred | GateClosed | SourceChanged | NameConflict | UnverifiedStage
    | CopyFailed | ChecksumMismatch | StageChanged | OwnershipConflict | TrackingConflict
    | DestinationChanged

  /** Answers from outside: the four gate checks, the copy, the location table. */
  datatype Answers = Answers(
    entry: Gate, publish: Gate, clean: Gate, remove: Gate,
    inode: nat, copied: Option<nat>, trackedElsewhere: bool)

  /** The checks that let a planned operation become a verified one. */
  predicate CanVerify(origin: Snapshot, s: State, a: Answers) {
    && At(s, Source) == Some(origin) && Target !in s.names && Witness !in s.names
    && a.copied == Some(origin.bytes)
  }

  predicate CanPublish(origin: Snapshot, s: State, a: Answers) {
    && s.stage.Some? && At(s, Witness) == s.stage && s.stage.value.bytes == origin.bytes
    && a.publish == Open && (Target in s.names ==> SameFile(s, Witness, Target))
    && At(s, Source) == Some(origin) && !a.trackedElsewhere
  }

  predicate CanClean(origin: Snapshot, s: State, a: Answers) {
    && a.clean == Open && a.remove == Open
    && SameFile(s, Witness, Target)
    && s.stage.Some? && At(s, Target) == s.stage && s.stage.value.bytes == origin.bytes
    && (Source in s.names ==> At(s, Source) == Some(origin))
    && s.published.Some? && s.published.value.bytes == origin.bytes
  }

  /** Exactly when one call takes the operation all the way to its end. */
  predicate Completes(origin: Snapshot, s: State, a: Answers) {
    match s.status
    case Cleaned => true
    case Conflict => false
    case Planned =>
      && a.entry == Open && a.publish == Open && a.clean == Open && a.remove == Open
      && CanVerify(origin, s, a) && !a.trackedElsewhere
    case Verified =>
      a.entry == Open && a.clean == Open && a.remove == Open && CanPublish(origin, s, a)
    case Published =>
      a.entry == Open && CanClean(origin, s, a)
  }

  predicate StageStands(origin: Snapshot, s: State) {
    s.stage.Some? && At(s, Witness) == s.stage && s.stage.value.bytes == origin.bytes
  }

  predicate CleanWaits(origin: Snapshot, s: State, a: Answers) {
    || a.clean == JournalPending
    || (a.clean == Open && a.remove == JournalPending
        && SameFile(s, Witness, Target)
        && s.stage.Some? && At(s, Target) == s.stage && s.stage.value.bytes == origin.bytes
        && (Source in s.names ==> At(s, Source) == Some(origin)))
  }

  /** Exactly when a call comes to a pending feedback journal before anything else stops it. */
  predicate Waits(origin: Snapshot, s: State, a: Answers) {
    var later := a.clean == JournalPending || (a.clean == Open && a.remove == JournalPending);
    match s.status
    case Cleaned => false
    case Conflict => false
    case Planned =>
      a.entry == JournalPending
      || (a.entry == Open && CanVerify(origin, s, a)
          && (a.publish == JournalPending || (a.publish == Open && !a.trackedElsewhere && later)))
    case Verified =>
      a.entry == JournalPending
      || (a.entry == Open && StageStands(origin, s)
          && (a.publish == JournalPending || (CanPublish(origin, s, a) && later)))
    case Published =>
      a.entry == JournalPending || (a.entry == Open && CleanWaits(origin, s, a))
  }

  // ------------------------------------------------- resuming what was stopped

  /** The program alone, from a plan whose names are free. */
  ghost predicate Alone(origin: Snapshot, run: seq<State>) {
    && Run(origin, run) && Target !in run[0].names && Witness !in run[0].names
    && forall i :: 0 <= i < |run| - 1 ==> ProgramStep(origin, run[i], run[i + 1])
  }

  /** What the program leaves for itself, status by status. */
  predicate Resumable(origin: Snapshot, s: State) {
    && WellFormed(s)
    && (s.copying.Some? ==> s.status == Planned && s.copying.value != origin.inode)
    && (s.status == Planned ==> At(s, Source) == Some(origin) && Target !in s.names && s.events == 1)
    && (s.status == Verified ==>
          && At(s, Source) == Some(origin) && s.events == 1
          && s.stage.Some? && At(s, Witness) == s.stage && s.stage.value.bytes == origin.bytes
          && (Target in s.names ==> SameFile(s, Witness, Target)))
    && (s.status == Published ==>
          && s.events == 3 && SameFile(s, Witness, Target)
          && s.stage.Some? && At(s, Target) == s.stage && s.stage.value.bytes == origin.bytes
          && (Source in s.names ==> At(s, Source) == Some(origin))
          && s.published.Some? && s.published.value.bytes == origin.bytes)
  }

  lemma ResumableStays(origin: Snapshot, s: State, t: State)
    requires Resumable(origin, s) && ProgramStep(origin, s, t)
    ensures Resumable(origin, t)
  {
  }

  lemma {:induction false} StaysResumable(origin: Snapshot, run: seq<State>, n: nat)
    requires Alone(origin, run) && n < |run|
    ensures Resumable(origin, run[n])
  {
    if n > 0 {
      StaysResumable(origin, run, n - 1);
      assert ProgramStep(origin, run[n - 1], run[n - 1 + 1]);
      ResumableStays(origin, run[n - 1], run[n]);
    }
  }

  /** Every gate is open, the copy is exact and nobody else claims the target. */
  predicate Welcome(origin: Snapshot, a: Answers) {
    && a.entry == Open && a.publish == Open && a.clean == Open && a.remove == Open
    && a.copied == Some(origin.bytes) && !a.trackedElsewhere
  }

  /**
    Wherever the program was stopped, one more call takes the operation to its
    end, unless it is up for review or was stopped between opening the witness
    and committing that it is verified.
   */
  lemma StoppedTransferCompletesIff(origin: Snapshot, run: seq<State>, n: nat, a: Answers)
    requires Alone(origin, run) && n < |run| && Welcome(origin, a)
    ensures Completes(origin, run[n], a) <==>
            run[n].status != Conflict && !(run[n].status == Planned && Witness in run[n].names)
  {
    StaysResumable(origin, run, n);
  }

  /** No call gets past a closed gate, a foreign or changed file, or a wrong copy. */
  lemma ObstaclesStop(origin: Snapshot, s: State, a: Answers)
    requires s.status in {Planned, Verified, Published} && Completes(origin, s, a)
    ensures a.entry == Open && a.clean == Open && a.remove == Open
    ensures Source in s.names ==> At(s, Source) == Some(origin)
    ensures s.status != Published ==> a.publish == Open && !a.trackedElsewhere && Source in s.names
    ensures s.status == Planned ==> Target !in s.names && Witness !in s.names && a.copied == Some(origin.bytes)
    ensures s.status != Planned ==>
      && At(s, Witness).Some? && At(s, Witness).value.bytes == origin.bytes
      && (Target in s.names ==> s.names[Target] == s.names[Witness])
    ensures s.status == Published ==>
      && Target in s.names && s.stage.Some? && At(s, Target) == s.stage
      && s.published.Some? && s.published.value.bytes == origin.bytes
    ensures s.status == Verified ==> At(s, Witness) == s.stage
  {
  }

  /** Only a pending journal makes a call wait; at the entry it always does, and an operation at its end never waits. */
  lemma OnlyTheJournalMakesItWait(origin: Snapshot, s: State, a: Answers)
    ensures Waits(origin, s, a) ==> JournalPending in {a.entry, a.publish, a.clean, a.remove} && !Completes(origin, s, a)
    ensures Waits(origin, s, a) && a.entry != JournalPending ==> a.entry == Open
    ensures a.entry == JournalPending ==> (Waits(origin, s, a) <==> s.status in {Planned, Verified, Published})
    ensures s.status == Planned && a.entry == Open && Waits(origin, s, a) ==>
              At(s, Source) == Some(origin) && Target !in s.names && Witness !in s.names && a.copied == Some(origin.bytes)
  {
  }

  /**
    One operation row with the files it moves. `trace` holds every state the
    operation has been in, whoever caused it; `Running` says it is a run.
   */
  class Operation {
    const origin: Snapshot
    var names: map<Place, nat>
    var data: map<nat, nat>
    var status: Status
    var stage: Option<Snapshot>
    var events: nat
    var published: Option<Snapshot>
    var copying: Option<nat>
    ghost var trace: seq<State>

    function View(): State
      reads this
    {
      State(names, data, status, stage, events, published, copying)
    }

    ghost predicate Running()
      reads this
    {
      Run(origin, trace) && trace[|trace| - 1] == View() && Inv(origin, View())
    }

    ghost predicate Valid()
      reads this
    {
      Running() && copying == None
    }

    /** The row `classify` commits, with the files as they are. */
    constructor (origin: Snapshot, names: map<Place, nat>, data: map<nat, nat>)
      requires names.Values <= data.Keys && Look(names, data, Source) == Some(origin)
      ensures Valid() && this.origin == origin && Initial(origin, View())
      ensures this.names == names && this.data == data
    {
      this.origin, this.names, this.data := origin, names, data;
      status, stage, events, published, copying := Planned, None, 1, None, None;
      trace := [State(names, data, Planned, None, 1, None, None)];
    }

    /** Notes the effect just made; each call proves that it was an allowed one. */
    ghost method Record()
      requires Run(origin, trace) && Inv(origin, trace[|trace| - 1])
      requires Step(origin, trace[|trace| - 1], View())
      modifies this`trace
      ensures Running() && trace == old(trace) + [View()]
    {
      StepKeepsInv(origin, trace[|trace| - 1], View());
      trace := trace + [View()];
    }

    method CreateWitness(inode: nat)
      requires Valid() && status == Planned && inode !in data
      requires Target !in names && Witness !in names && At(View(), Source) == Some(origin)
      modifies this
      ensures Running() && old(trace) <= trace
      ensures View() == old(View()).(names := old(names)[Witness := inode],
                                     data := old(data)[inode := 0], copying := Some(inode))
    {
      names, data, copying := names[Witness := inode], data[inode := 0], Some(inode);
      Record();
    }

    method WriteWitness(bytes: nat)
      requires Running() && status == Planned && copying.Some? && copying.value in data
      modifies this
      ensures Running() && old(trace) <= trace
      ensures View() == old(View()).(data := old(data)[old(copying).value := bytes])
    {
      data := data[copying.value := bytes];
      Record();
    }

    method AbandonCopy()
      requires Running()
      modifies this
      ensures Valid() && old(trace) <= trace
      ensures View() == old(View()).(copying := None)
    {
      copying := None;
      Record();
    }

    method SetConflict()
      requires Running() && status != Cleaned
      modifies this
      ensures Valid() && old(trace) <= trace
      ensures View() == old(View()).(copying := None, status := Conflict)
    {
      copying, status := None, Conflict;
      Record();
    }

    /** Lines 135-164: copy to the witness, check it, commit `destination_verified`. */
    method VerifyStage(a: Answers) returns (r: Option<Refusal>)
      requires Valid() && status == Planned && a.inode !in data
      modifies this
      ensures Valid() && old(trace) <= trace
      ensures r == None <==> CanVerify(origin, old(View()), a)
      ensures r == None ==>
        View() == old(View()).(names := old(names)[Witness := a.inode],
                               data := old(data)[a.inode := origin.bytes], status := Verified,
                               stage := Some(Snapshot(a.inode, origin.bytes)))
      ensures r != None ==> status == (if r == Some(UnverifiedStage) then Conflict else Planned)
      ensures r == Some(SourceChanged) || r == Some(NameConflict) ==> View() == old(View())
      ensures r != Some(Deferred)
      ensures r == Some(UnverifiedStage) <==>
        old(At(View(), Source) == Some(origin) && Target !in names && Witness in names)
    {
      if At(View(), Source) != Some(origin) { return Some(SourceChanged); }
      if Target in names { return Some(NameConflict); }
      if Witness in names {
        SetConflict();
        return Some(UnverifiedStage);
      }
      CreateWitness(a.inode);
      if a.copied == None {
        AbandonCopy();
        return Some(CopyFailed);
      }
      WriteWitness(a.copied.value);
      if a.copied.value != origin.bytes {
        AbandonCopy();
        return Some(ChecksumMismatch);
      }
      stage, status, copying := At(View(), Witness), Verified, None;
      Record();
      return None;
    }

    method LinkWitness()
      requires Valid() && LinkReady(origin, View())
      modifies this
      ensures Valid() && old(trace) <= trace
      ensures View() == old(View()).(names := old(names)[Target := old(names)[Witness]])
    {
      names := names[Target := names[Witness]];
      Record();
    }

    method CommitPublication()
      requires Valid() && status == Verified && SameFile(View(), Witness, Target)
      requires stage.Some? && stage.value.bytes == origin.bytes
      requires At(View(), Source) == Some(origin)
      modifies this
      ensures Valid() && old(trace) <= trace
      ensures View() == old(View()).(status := Published, events := 3, published := At(old(View()), Target))
    {
      published, events, status := At(View(), Target), 3, Published;
      Record();
    }

    /** Lines 165-188: link the verified witness to the target and commit. */
    method PublishStage(a: Answers) returns (r: Option<Refusal>)
      requires Valid() && status == Verified
      modifies this
      ensures Valid() && old(trace) <= trace
      ensures r == None <==> CanPublish(origin, old(View()), a)
      ensures r == None ==>
        View() == old(View()).(names := old(names)[Target := old(names)[Witness]],
                               status := Published, events := 3, published := old(stage))
      ensures r != None ==> View() == old(View()).(names := names)
      ensures r != None && names != old(names) ==>
        Witness in old(names) && names == old(names)[Target := old(names)[Witness]]
      ensures r == Some(Deferred) <==> StageStands(origin, old(View())) && a.publish == JournalPending
    {
      if !stage.Some? || At(View(), Witness) != stage || stage.value.bytes != origin.bytes {
        return Some(StageChanged);
      }
      if a.publish != Open {
        return Some(if a.publish == JournalPending then Deferred else GateClosed);
      }
      if Target in names {
        if !SameFile(View(), Witness, Target) { return Some(OwnershipConflict); }
      } else {
        LinkWitness();
      }
      if At(View(), Source) != Some(origin) { return Some(SourceChanged); }
      if a.trackedElsewhere { return Some(TrackingConflict); }
      CommitPublication();
      return None;
    }

    method UnlinkSource()
      requires Valid() && RemovalAllowed(origin, View())
      modifies this
      ensures Valid() && old(trace) <= trace
      ensures View() == old(View()).(names := old(names) - {Source})
    {
      names := names - {Source};
      Record();
    }

    method CommitRemoval()
      requires Valid() && CommitCleaned(View(), View().(status := Cleaned, events := 4))
      modifies this
      ensures Valid() && old(trace) <= trace
      ensures View() == old(View()).(status := Cleaned, events := 4)
    {
      status, events := Cleaned, 4;
      Record();
    }

    method UnlinkWitness()
      requires Valid() && status == Cleaned
      modifies this
      ensures Valid() && old(trace) <= trace
      ensures View() == old(View()).(names := old(names) - {Witness})
    {
      names := names - {Witness};
      Record();
    }

    /** Lines 189-211: remove the source, commit `source_cleaned`, drop the witness. */
    method CleanSource(a: Answers) returns (r: Option<Refusal>)
      requires Valid() && status == Published
      modifies this
      ensures Valid() && old(trace) <= trace
      ensures r == None <==> CanClean(origin, old(View()), a)
      ensures r == None ==>
        View() == old(View()).(names := old(names) - {Source, Witness}, status := Cleaned, events := 4)
      ensures r != None ==> View() == old(View()).(status := status, names := names)
      ensures r != None ==> status in {Published, Conflict}
      ensures r == Some(Deferred) <==> CleanWaits(origin, old(View()), a)
      ensures r == Some(Deferred) ==> status == Published
      ensures r == Some(DestinationChanged) <==>
        old(a.clean == Open && !SameFile(View(), Witness, Target)) && status == Conflict
      ensures r != None && Source !in names ==> old(Source !in names || RemovalAllowed(origin, View()))
    {
      if a.clean != Open {
        return Some(if a.clean == JournalPending then Deferred else GateClosed);
      }
      if !SameFile(View(), Witness, Target) {
        SetConflict();
        return Some(DestinationChanged);
      }
      if !stage.Some? || At(View(), Target) != stage || stage.value.bytes != origin.bytes {
        return Some(ChecksumMismatch);
      }
      if Source in names && At(View(), Source) != Some(origin) { return Some(SourceChanged); }
      if a.remove != Open {
        return Some(if a.remove == JournalPending then Deferred else GateClosed);
      }
      UnlinkSource();
      if published.value.bytes != stage.value.bytes { return Some(StageChanged); }
      CommitRemoval();
      UnlinkWitness();
      return None;
    }

    /** `advance_transfer` itself. */
    method Advance(a: Answers) returns (r: Option<Refusal>)
      requires Valid() && a.inode !in data
      modifies this
      ensures Valid() && old(trace) <= trace
      ensures r == None <==> Completes(origin, old(View()), a)
      ensures r == None ==> status == Cleaned && Source !in names && At(View(), Target).Some?
      ensures r == None && old(status) != Cleaned ==>
        Witness !in names && At(View(), Target).value.bytes == origin.bytes
      ensures r != None ==> Rank(old(status)) <= Rank(status) && status != Cleaned
      ensures r == Some(Deferred) <==> Waits(origin, old(View()), a)
      ensures r == Some(Deferred) ==> status != Conflict
      ensures old(status) == Cleaned || old(status) == Conflict ==> View() == old(View())
      ensures a.entry != Open ==> View() == old(View())
    {
      if status == Cleaned { return None; }
      if status == Conflict { return Some(NeedsReview); }
      if a.entry != Open {
        return Some(if a.entry == JournalPending then Deferred else GateClosed);
      }
      if status == Planned {
        r := VerifyStage(a);
        if r != None { return; }
      }
      if status == Verified {
        r := PublishStage(a);
        if r != None { return; }
      }
      r := CleanSource(a);
    }

    /**
      The supervisor's resumption: any refusal but a pending feedback journal
      puts the operation aside for review.
     */
    method Resume(a: Answers) returns (done: bool)
      requires Valid() && a.inode !in data && status in {Planned, Verified, Published}
      modifies this
      ensures Valid() && old(trace) <= trace
      ensures done <==> Completes(origin, old(View()), a)
      ensures done ==> status == Cleaned && Source !in names
      ensures !done ==> (status == Conflict <==> !Waits(origin, old(View()), a))
    {
      var r := Advance(a);
      done := r == None;
      if !done && r != Some(Deferred) && status != Conflict {
        SetConflict();
      }
    }

    /** Whatever other programs do between two effects keeps the object valid. */
    method Others(names': map<Place, nat>, data': map<nat, nat>)
      requires Valid() && OtherStep(origin, View(), View().(names := names', data := data'))
      modifies this
      ensures Valid() && old(trace) <= trace
      ensures View() == old(View()).(names := names', data := data')
    {
      names, data := names', data';
      Record();
    }
  }
}
