/**
  The image pipeline's routines on one mission row. Every effect is recorded;
  `Valid` says that what was recorded is a run of `ImageCustody`.
 */
module ImageMission {
  import opened Wrappers
  import opened ImageCustody

  /**
    What the outside world answers in one call: the tree the ingestion copy
    yields, the processed batch, the tree the staging copy yields, whether the
    final removal goes through, and which paths outlive the first stage of a
    removal.
   */
  datatype Answers = Answers(
    ingested: Option<Tree>, batch: Option<Tree>, nameFree: bool, copied: Tree,
    removable: bool, survivors: set<nat>)

  function Left(tree: Option<Tree>, survivors: set<nat>): (left: Option<Tree>)
    ensures Shrunk(tree, left)
  {
    match tree
    case None => None
    case Some(files) => Some(map path | path in files && path in survivors :: files[path])
  }

  /** Exactly when the batch can be taken into the mission directory. */
  predicate IngestAccepted(s: State, a: Answers) {
    if s.staged.Some? then
      && (s.marker.Some? ==> s.marker == s.staged)
      && (s.quarantine.Some? && s.marker == None ==> s.quarantine == s.staged)
    else
      && (s.quarantine.Some? || s.source.Some?)
      && a.ingested == if s.quarantine.Some? then s.quarantine else s.source
  }

  predicate PrepareAccepted(s: State, a: Answers) {
    IngestAccepted(s, a) && a.batch.Some? && a.nameFree && s.destination == None && Some(a.copied) == a.batch
  }

  predicate PublishAccepted(s: State) {
    && s.expected.Some?
    && (s.destination == s.expected || (s.destination == None && s.outgoing == s.expected))
  }

  /** The status one uninterrupted call of `process_mission` ends with. */
  function Outcome(s: State, a: Answers): Status {
    match s.status
    case Moving => Finish(PrepareAccepted(s, a), a)
    case Processing => Finish(PrepareAccepted(s, a), a)
    case Publishing => Finish(PublishAccepted(s), a)
    case CleanupPending => Finish(s.destination == s.expected, a)
    case _ => s.status
  }

  function Finish(accepted: bool, a: Answers): Status {
    if !accepted then Failed else if a.removable then Completed else CleanupPending
  }

  /**
    A batch that is complete in the mission directory is refused exactly when
    its quarantine was left half removed before the marker was written.
   */
  lemma HeldBatchRefusedIff(run: seq<State>, n: nat, a: Answers)
    requires Run(run) && n < |run| && run[n].status in {Moving, Processing} && run[n].staged.Some?
    ensures run[n].staged == Some(run[n].original)
    ensures !IngestAccepted(run[n], a) <==>
      && run[n].marker == None && run[n].quarantine.Some? && run[n].quarantine != run[n].staged
  {
    RunKeepsInv(run, n);
  }

  // ------------------------------------------- when a call brings a batch to its end

  /** What is to be copied in: the quarantined batch, or else the source. */
  function Incoming(s: State): Option<Tree> { if s.quarantine.Some? then s.quarantine else s.source }

  /** A quarantine half removed before the marker was written. */
  predicate Stranded(s: State) {
    s.staged.Some? && s.marker == None && s.quarantine.Some? && s.quarantine != s.staged
  }

  /** Everything that is asked for along the way is as it must be. */
  predicate Supplied(s: State, a: Answers) {
    && a.batch.Some? && a.nameFree && a.batch == Some(a.copied)
    && (s.staged == None ==> a.ingested.Some? && a.ingested == Incoming(s))
  }

  predicate CanEnd(s: State, a: Answers) {
    if s.status in {Moving, Processing} then
      Supplied(s, a) && s.destination == None && !Stranded(s) && (s.staged.Some? && s.marker.Some? ==> s.marker == s.staged)
    else if s.status == Publishing then
      s.expected.Some? && if s.destination.Some? then s.destination == s.expected else s.outgoing == s.expected
    else s.destination == s.expected
  }

  /**
    A call completes a mission exactly when it can end and its directory can be
    removed; one that can end but not be removed waits for that, and any other
    has failed. What was not under way stays as it was.
   */
  lemma EndsIff(s: State, a: Answers)
    ensures var active := s.status in {Moving, Processing, Publishing, CleanupPending};
            && (!active ==> Outcome(s, a) == s.status)
            && (active ==> (Outcome(s, a) == Completed <==> CanEnd(s, a) && a.removable))
            && (active ==> (Outcome(s, a) == CleanupPending <==> CanEnd(s, a) && !a.removable))
            && (active ==> (Outcome(s, a) == Failed <==> !CanEnd(s, a)))
  {
  }

  /** The program alone: no user touches source or destination after the start. */
  ghost predicate Undisturbed(run: seq<State>) {
    && Run(run) && run[0].source.Some? && run[0].destination == None
    && forall i :: 0 <= i < |run| - 1 ==> ProgramStep(run[i], run[i + 1])
  }

  /** What the program leaves for itself. */
  predicate Prepared(s: State) {
    && (s.status in {Ready, Moving} && s.staged == None ==> s.source.Some? || s.quarantine.Some?)
    && (s.status in {Ready, Moving, Processing} ==> s.destination == None)
    && (s.status == Publishing ==>
          s.expected.Some? && ((s.destination == None && s.outgoing == s.expected) || s.destination == s.expected))
    && (s.status == CleanupPending ==> s.destination == s.expected)
  }

  lemma {:induction false} StaysPrepared(run: seq<State>, n: nat)
    requires Undisturbed(run) && n < |run|
    ensures Prepared(run[n])
  {
    if n > 0 {
      StaysPrepared(run, n - 1);
      RunKeepsInv(run, n - 1);
      assert ProgramStep(run[n - 1], run[n - 1 + 1]);
      PreparedStep(run[n - 1], run[n]);
    }
  }

  lemma PreparedStep(s: State, t: State)
    requires Inv(s) && Prepared(s) && ProgramStep(s, t)
    ensures Prepared(t)
  {
  }

  /**
    Wherever the program was stopped, the next call completes the mission, given
    faithful copies, a processed batch and a free name, unless it was stopped
    while it removed the quarantine with no marker written yet.
   */
  lemma StoppedMissionCompletesIff(run: seq<State>, n: nat, a: Answers)
    requires Undisturbed(run) && n < |run|
    requires run[n].status in {Moving, Processing, Publishing, CleanupPending}
    requires Supplied(run[n], a) && a.removable
    ensures Outcome(run[n], a) == Completed <==> !(run[n].status in {Moving, Processing} && Stranded(run[n]))
  {
    StaysPrepared(run, n);
    RunKeepsInv(run, n);
    EndsIff(run[n], a);
  }

  /** Two stops at the wrong moments lead there, and no retry leads out. */
  lemma StrandedBatchIsReachable() returns (run: seq<State>, last: State)
    ensures Run(run) && run[|run| - 1] == last
    ensures last.status == Moving && last.staged == Some(last.original)
    ensures forall a :: !IngestAccepted(last, a)
  {
    var batch := map[0 := 7, 1 := 8];
    var a := State(Some(batch), None, None, None, None, None, None, None, Ready, None, false,
                   map[], false, false, false);
    var b := a.(status := Moving);
    assert Claim(a, b);
    var c := b.(source := None, quarantine := Some(batch), original := batch, taken := true);
    assert TakeSource(b, c);
    var d := c.(part := Some(batch));
    assert ChangePart(c, d);
    var e := d.(staged := Some(batch), part := None);
    assert Promote(d, e);
    run := [a];
    Extend(run, b);
    run := run + [b];
    Extend(run, c);
    run := run + [c];
    Extend(run, d);
    run := run + [d];
    Extend(run, e);
    run := run + [e];
    var f := e.(clearing := true);
    assert StartClearing(e, f);
    Extend(run, f);
    run := run + [f];
    var g := f.(quarantine := Some(map[0 := 7]));
    assert map[0 := 7].Items <= batch.Items by {
      assert batch[0] == 7;
    }
    assert ShrinkQuarantine(f, g);
    Extend(run, g);
    run := run + [g];
    var h := g.(clearing := false);
    assert Stop(g, h);
    Extend(run, h);
    run := run + [h];
    assert 1 in batch && 1 !in map[0 := 7];
    last := h;
  }

  class Mission {
    var source: Option<Tree>
    var quarantine: Option<Tree>
    var part: Option<Tree>
    var staged: Option<Tree>
    var marker: Option<Tree>
    var result: Option<Tree>
    var outgoing: Option<Tree>
    var destination: Option<Tree>
    var status: Status
    var expected: Option<Tree>
    ghost var clearing: bool
    ghost var original: Tree
    ghost var taken: bool
    ghost var reached: bool
    ghost var delivered: bool
    ghost var trace: seq<State>

    ghost function View(): State
      reads this
    {
      State(source, quarantine, part, staged, marker, result, outgoing, destination,
            status, expected, clearing, original, taken, reached, delivered)
    }

    ghost predicate Valid()
      reads this
    {
      Run(trace) && trace[|trace| - 1] == View() && Inv(View())
    }

    /** A batch was found and registered; nothing has been touched. */
    constructor (source: Option<Tree>, destination: Option<Tree>)
      ensures Valid() && !clearing && Initial(View()) && this.source == source && this.destination == destination
    {
      this.source, this.destination := source, destination;
      quarantine, part, staged, marker, result, outgoing := None, None, None, None, None, None;
      status, expected := Ready, None;
      clearing, original, taken, reached, delivered := false, map[], false, false, false;
      trace := [State(source, None, None, None, None, None, None, destination, Ready, None, false,
                      map[], false, false, false)];
    }

    /** The mission is claimed for ingestion. */
    method ClaimMission()
      requires Valid() && !clearing && status == Ready
      modifies this
      ensures Valid() && !clearing && old(trace) <= trace
      ensures View() == old(View()).(status := Moving)
    {
      status := Moving;
      assert Claim(trace[|trace| - 1], View());
      Record();
    }

    /** Users do as they please at the batch's old path. */
    method UsersAtSource(source: Option<Tree>)
      requires Valid()
      modifies this
      ensures Valid() && old(trace) <= trace
      ensures View() == old(View()).(source := source)
    {
      this.source := source;
      assert ChangeSource(trace[|trace| - 1], View());
      Record();
    }

    /** Users take the delivery, or put something at the free destination. */
    method UsersAtDestination(destination: Option<Tree>)
      requires Valid() && (destination.Some? ==> this.destination == None)
      modifies this
      ensures Valid() && old(trace) <= trace
      ensures View() == old(View()).(destination := destination,
                                     delivered := old(delivered) || (destination == None && old(reached)))
    {
      delivered := delivered || (destination == None && reached);
      this.destination := destination;
      assert TakeDestination(trace[|trace| - 1], View()) || PlaceDestination(trace[|trace| - 1], View());
      Record();
    }

    ghost method Record()
      requires Run(trace) && (ProgramStep(trace[|trace| - 1], View()) || UserStep(trace[|trace| - 1], View()))
      modifies this`trace
      ensures Valid() && trace == old(trace) + [View()]
    {
      Extend(trace, View());
      trace := trace + [View()];
      RunKeepsInv(trace, |trace| - 1);
    }

    // -------------------------------------------------------- single effects

    method Quarantine()
      requires Valid() && status in {Moving, Processing} && staged == None && quarantine == None && source.Some?
      modifies this
      ensures Valid() && old(trace) <= trace
      ensures View() == old(View()).(source := None, quarantine := old(source),
                                     original := old(source).value, taken := true)
    {
      source, quarantine, original, taken := None, source, source.value, true;
      assert TakeSource(trace[|trace| - 1], View());
      Record();
    }

    method SetPart(tree: Option<Tree>)
      requires Valid() && status in {Moving, Processing} && staged == None && (tree.Some? ==> quarantine.Some?)
      modifies this
      ensures Valid() && old(trace) <= trace
      ensures View() == old(View()).(part := tree)
    {
      part := tree;
      assert ChangePart(trace[|trace| - 1], View());
      Record();
    }

    method PromotePart()
      requires Valid() && status in {Moving, Processing} && staged == None && part.Some? && quarantine == part
      modifies this
      ensures Valid() && old(trace) <= trace
      ensures View() == old(View()).(staged := old(part), part := None)
    {
      staged, part := part, None;
      assert Promote(trace[|trace| - 1], View());
      Record();
    }

    method SetMarker()
      requires Valid() && status in {Moving, Processing} && staged.Some?
      modifies this
      ensures Valid() && old(trace) <= trace
      ensures View() == old(View()).(marker := old(staged))
    {
      marker := staged;
      assert WriteMarker(trace[|trace| - 1], View());
      Record();
    }

    ghost method BeginClearing()
      requires Valid() && StartClearing(View(), View().(clearing := true))
      modifies this
      ensures Valid() && old(trace) <= trace
      ensures View() == old(View()).(clearing := true)
    {
      clearing := true;
      Record();
    }

    method SetQuarantine(tree: Option<Tree>)
      requires Valid() && clearing && Shrunk(quarantine, tree)
      modifies this
      ensures Valid() && old(trace) <= trace
      ensures View() == old(View()).(quarantine := tree)
    {
      quarantine := tree;
      assert ShrinkQuarantine(trace[|trace| - 1], View());
      Record();
    }

    ghost method EndClearing()
      requires Valid()
      modifies this
      ensures Valid() && old(trace) <= trace
      ensures View() == old(View()).(clearing := false)
    {
      clearing := false;
      assert Stop(trace[|trace| - 1], View());
      Record();
    }

    /** The quarantine is removed, piece by piece. */
    method ClearQuarantine(survivors: set<nat>)
      requires Valid() && !clearing && status in {Moving, Processing} && staged.Some?
      requires marker == staged || (marker == None && quarantine == staged)
      modifies this
      ensures Valid() && old(trace) <= trace
      ensures View() == old(View()).(quarantine := None)
    {
      BeginClearing();
      SetQuarantine(Left(quarantine, survivors));
      SetQuarantine(None);
      EndClearing();
    }

    // ---------------------------------------------------------- the routines

    /** Lines 263-287: the batch is already in the mission directory. */
    method ConfirmIngested(a: Answers) returns (ok: bool)
      requires Valid() && !clearing && status in {Moving, Processing} && staged.Some?
      modifies this
      ensures Valid() && !clearing && old(trace) <= trace
      ensures ok <==> IngestAccepted(old(View()), a)
      ensures View() == if ok then old(View()).(quarantine := None, marker := old(staged)) else old(View())
    {
      if marker.Some? && marker != staged { return false; }
      if quarantine.Some? {
        if marker == None && quarantine != staged { return false; }
        ClearQuarantine(a.survivors);
      }
      if marker == None {
        SetMarker();
      }
      return true;
    }

    /** Lines 289-321: move the source into quarantine and copy it over. */
    method IngestSource(a: Answers) returns (ok: bool)
      requires Valid() && !clearing && status in {Moving, Processing} && staged == None
      modifies this
      ensures Valid() && !clearing && old(trace) <= trace
      ensures ok <==> IngestAccepted(old(View()), a)
      ensures View() == old(View()).(source := source, quarantine := quarantine, part := part, staged := staged,
                                     marker := marker, original := original, taken := taken)
      ensures ok ==> staged == a.ingested && marker == staged && quarantine == None && part == None
      ensures ok ==> source == if old(quarantine).Some? then old(source) else None
      ensures !ok ==> staged == None && marker == old(marker)
      ensures !ok ==> if old(quarantine).Some? then source == old(source) && quarantine == old(quarantine)
                      else source == None && quarantine == old(source)
      ensures !ok ==> part == if quarantine == None then None else if a.ingested == None then Left(quarantine, a.survivors) else a.ingested
    {
      if part.Some? {
        SetPart(Left(part, a.survivors));
        SetPart(None);
      }
      if quarantine == None {
        if source == None { return false; }
        Quarantine();
      }
      SetPart(Left(quarantine, a.survivors));
      if a.ingested == None { return false; }
      SetPart(a.ingested);
      if part != quarantine { return false; }
      PromotePart();
      SetMarker();
      ClearQuarantine(a.survivors);
      return true;
    }

    /** `ensure_ingested`. */
    method EnsureIngested(a: Answers) returns (ok: bool)
      requires Valid() && !clearing && status in {Moving, Processing}
      modifies this
      ensures Valid() && !clearing && old(trace) <= trace
      ensures ok <==> IngestAccepted(old(View()), a)
      ensures ok ==> staged.Some? && marker == staged && quarantine == None
      ensures ok && old(staged).Some? ==> staged == old(staged) && source == old(source)
      ensures status == old(status) && destination == old(destination) && outgoing == old(outgoing)
      ensures reached == old(reached)
    {
      if staged.Some? {
        ok := ConfirmIngested(a);
      } else {
        ok := IngestSource(a);
      }
    }

    method SetResult(tree: Option<Tree>)
      requires Valid() && status == Processing && staged.Some?
      modifies this
      ensures Valid() && old(trace) <= trace
      ensures View() == old(View()).(result := tree)
    {
      result := tree;
      assert ChangeResult(trace[|trace| - 1], View());
      Record();
    }

    method SetOutgoing(tree: Option<Tree>)
      requires Valid() && status in {Processing, Failed}
      modifies this
      ensures Valid() && old(trace) <= trace
      ensures View() == old(View()).(outgoing := tree)
    {
      outgoing := tree;
      assert ChangeOutgoing(trace[|trace| - 1], View());
      Record();
    }

    method CommitStatus(next: Status)
      requires Valid() && !clearing
      requires || (next == Processing && status == Moving && staged.Some? && marker == staged && quarantine == None)
               || (next == CleanupPending && status == Publishing && expected.Some? && destination == expected)
               || (next == Failed && status in {Moving, Processing, Publishing, CleanupPending})
      modifies this
      ensures Valid() && !clearing && old(trace) <= trace
      ensures View() == old(View()).(status := next, reached := old(reached) || next == CleanupPending)
    {
      status, reached := next, reached || next == CleanupPending;
      ghost var before := trace[|trace| - 1];
      assert CommitProcessing(before, View()) || CommitCleanup(before, View()) || Fail(before, View());
      Record();
    }

    /** The exception branch: mark the mission failed, drop the staging copy. */
    method FailMission(survivors: set<nat>)
      requires Valid() && !clearing && status in {Moving, Processing, Publishing, CleanupPending}
      modifies this
      ensures Valid() && old(trace) <= trace
      ensures View() == old(View()).(status := Failed, outgoing := None)
    {
      CommitStatus(Failed);
      if outgoing.Some? {
        SetOutgoing(Left(outgoing, survivors));
        SetOutgoing(None);
      }
    }

    /** Old results are removed and the new ones written, neither in one go. */
    method ReplaceResult(tree: Tree, survivors: set<nat>)
      requires Valid() && status == Processing
      modifies this
      ensures Valid() && old(trace) <= trace
      ensures View() == old(View()).(result := Some(tree))
    {
      SetResult(Left(result, survivors));
      SetResult(Left(Some(tree), survivors));
      SetResult(Some(tree));
    }

    method ReplaceOutgoing(tree: Tree, survivors: set<nat>)
      requires Valid() && status == Processing
      modifies this
      ensures Valid() && old(trace) <= trace
      ensures View() == old(View()).(outgoing := Some(tree))
    {
      SetOutgoing(Left(outgoing, survivors));
      SetOutgoing(Left(Some(tree), survivors));
      SetOutgoing(Some(tree));
    }

    method CommitStaged()
      requires Valid() && !clearing && status == Processing && outgoing.Some? && outgoing == result
      modifies this
      ensures Valid() && old(trace) <= trace
      ensures View() == old(View()).(status := Publishing, expected := old(outgoing))
    {
      status, expected := Publishing, outgoing;
      assert CommitPublishing(trace[|trace| - 1], View());
      Record();
    }

    /** Lines 603-616: process the batch, stage the results, commit `PUBLISHING`. */
    method PrepareAndStage(a: Answers) returns (ok: bool)
      requires Valid() && !clearing && status == Processing
      modifies this
      ensures Valid() && !clearing && old(trace) <= trace
      ensures ok <==> a.batch.Some? && a.nameFree && destination == None && Some(a.copied) == a.batch
      ensures destination == old(destination) && staged == old(staged)
      ensures if ok then status == Publishing && expected == outgoing == a.batch else status == Processing
    {
      if a.batch == None {
        SetResult(None);
        return false;
      }
      ReplaceResult(a.batch.value, a.survivors);
      if !a.nameFree { return false; }
      if destination.Some? {
        SetOutgoing(None);
        return false;
      }
      ReplaceOutgoing(a.copied, a.survivors);
      if Some(a.copied) != result { return false; }
      CommitStaged();
      return true;
    }

    /** `publish`, then the commit of `CLEANUP_PENDING`. */
    method Publish() returns (ok: bool)
      requires Valid() && !clearing && status == Publishing
      modifies this
      ensures Valid() && !clearing && old(trace) <= trace
      ensures ok <==> PublishAccepted(old(View()))
      ensures if ok then status == CleanupPending && expected == old(expected) && destination == expected
              else View() == old(View())
    {
      if expected == None { return false; }
      if destination.Some? {
        if destination != expected { return false; }
      } else {
        if outgoing != expected { return false; }
        destination, outgoing := outgoing, None;
        assert RenameOutgoing(trace[|trace| - 1], View());
        Record();
      }
      CommitStatus(CleanupPending);
      return true;
    }

    method ShrinkTo(part': Option<Tree>, staged': Option<Tree>, marker': Option<Tree>,
                    result': Option<Tree>, outgoing': Option<Tree>)
      requires Valid() && status == CleanupPending && destination == expected
      requires Shrunk(part, part') && Shrunk(staged, staged') && Shrunk(marker, marker')
      requires Shrunk(result, result') && Shrunk(outgoing, outgoing')
      modifies this
      ensures Valid() && old(trace) <= trace
      ensures View() == old(View()).(part := part', staged := staged', marker := marker',
                                     result := result', outgoing := outgoing')
    {
      part, staged, marker, result, outgoing := part', staged', marker', result', outgoing';
      assert ShrinkMission(trace[|trace| - 1], View());
      Record();
    }

    /** The mission directory and the staging copy go, in one or two stages. */
    method RemoveMission(a: Answers)
      requires Valid() && !clearing && status == CleanupPending && destination == expected
      modifies this
      ensures Valid() && !clearing && old(trace) <= trace
      ensures View() == old(View()).(part := part, staged := staged, marker := marker,
                                     result := result, outgoing := outgoing)
      ensures a.removable ==> part == staged == marker == result == outgoing == None
    {
      ShrinkTo(Left(part, a.survivors), Left(staged, a.survivors), Left(marker, a.survivors),
               Left(result, a.survivors), Left(outgoing, a.survivors));
      if a.removable {
        ShrinkTo(None, None, None, None, None);
      }
    }

    /** `_complete_cleanup`; an unremovable file leaves the cleanup pending. */
    method CompleteCleanup(a: Answers)
      requires Valid() && !clearing && status == CleanupPending
      modifies this
      ensures Valid() && old(trace) <= trace
      ensures status == Finish(old(destination == expected), a)
      ensures destination == old(destination) && expected == old(expected) && quarantine == old(quarantine)
      ensures status == Failed ==> staged == old(staged)
      ensures status == Completed ==> part == staged == marker == result == outgoing == None
    {
      if destination != expected {
        FailMission(a.survivors);
        return;
      }
      RemoveMission(a);
      if a.removable {
        status := Completed;
        assert CommitCompleted(trace[|trace| - 1], View());
        Record();
      }
    }

    /** `process_mission`. */
    method ProcessMission(a: Answers)
      requires Valid() && !clearing
      modifies this
      ensures Valid() && old(trace) <= trace
      ensures status == Outcome(old(View()), a)
      ensures status == Completed && old(status) in {Moving, Processing} ==> destination == a.batch
      ensures status == Completed && old(status) in {Publishing, CleanupPending} ==> destination == old(expected)
      ensures status == Failed ==> destination == old(destination)
      ensures status == Failed && old(status) != Failed ==> staged == old(staged) || old(status) in {Moving, Processing}
    {
      if status == Moving {
        var ok := EnsureIngested(a);
        if !ok {
          FailMission(a.survivors);
          return;
        }
        CommitStatus(Processing);
      }
      if status == Processing {
        var ok := EnsureIngested(a);
        if ok {
          ok := PrepareAndStage(a);
        }
        if !ok {
          FailMission(a.survivors);
          return;
        }
      }
      if status == Publishing {
        var ok := Publish();
        if !ok {
          FailMission(a.survivors);
          return;
        }
      }
      if status == CleanupPending {
        CompleteCleanup(a);
      }
    }
  }
}
