/**
  Image compression: custody of one source batch from ingestion to cleanup.

  A tree maps relative paths to contents, so two trees have the same content
  manifest exactly when they are equal. Copies and recursive removals are not
  atomic: any tree may be on disk while a copy runs, any part of a tree while
  it is removed.
 */
module ImageCustody {
  import opened Wrappers

  type Tree = map<nat, nat>

  datatype Status =
    Ready | Moving | Processing | Publishing | CleanupPending | Completed | Failed

  /**
    `source` is the path the batch was found at, `quarantine` its hidden
    neighbour; `part`, `staged`, `marker` and `result` lie in the mission's own
    directory, `outgoing` beside `destination`. `clearing` is set while the
    running routine removes the quarantine. The last four fields are history:
    what was taken, whether anything was, whether cleanup was reached, and
    whether users have since taken the delivery.
   */
  datatype State = State(
    source: Option<Tree>, quarantine: Option<Tree>, part: Option<Tree>, staged: Option<Tree>,
    marker: Option<Tree>, result: Option<Tree>, outgoing: Option<Tree>, destination: Option<Tree>,
    status: Status, expected: Option<Tree>, clearing: bool,
    original: Tree, taken: bool, reached: bool, delivered: bool)

  /** What may be left of `before` while it is being removed. */
  predicate Shrunk(before: Option<Tree>, after: Option<Tree>) {
    after == None || (before.Some? && after.value.Items <= before.value.Items)
  }

  // ------------------------------------------------- steps of the program

  predicate Claim(s: State, t: State) {
    s.status == Ready && t == s.(status := Moving)
  }

  /** The rename is the only access to the source path. */
  predicate TakeSource(s: State, t: State) {
    && s.status in {Moving, Processing} && s.staged == None && s.quarantine == None && s.source.Some?
    && t == s.(source := None, quarantine := s.source, original := s.source.value, taken := true)
  }

  predicate ChangePart(s: State, t: State) {
    && s.status in {Moving, Processing} && s.staged == None
    && (t.part.Some? ==> s.quarantine.Some?)
    && t == s.(part := t.part)
  }

  /** Both manifests of the quarantine and that of the copy agree. */
  predicate Promote(s: State, t: State) {
    && s.status in {Moving, Processing} && s.staged == None && s.part.Some? && s.quarantine == s.part
    && t == s.(staged := s.part, part := None)
  }

  predicate WriteMarker(s: State, t: State) {
    && s.status in {Moving, Processing} && s.staged.Some?
    && t == s.(marker := s.staged)
  }

  /** The check that allows the quarantine to be removed. */
  predicate StartClearing(s: State, t: State) {
    && s.status in {Moving, Processing} && s.staged.Some?
    && (s.marker == s.staged || (s.marker == None && s.quarantine == s.staged))
    && t == s.(clearing := true)
  }

  predicate ShrinkQuarantine(s: State, t: State) {
    && s.clearing && Shrunk(s.quarantine, t.quarantine)
    && t == s.(quarantine := t.quarantine)
  }

  predicate CommitProcessing(s: State, t: State) {
    && s.status == Moving && s.staged.Some? && s.marker == s.staged && s.quarantine == None
    && t == s.(status := Processing, clearing := false)
  }

  predicate ChangeResult(s: State, t: State) {
    && s.status == Processing && s.staged.Some?
    && t == s.(result := t.result)
  }

  predicate ChangeOutgoing(s: State, t: State) {
    && s.status in {Processing, Failed} && t == s.(outgoing := t.outgoing)
  }

  predicate CommitPublishing(s: State, t: State) {
    && s.status == Processing && s.staged.Some? && s.outgoing.Some? && s.outgoing == s.result
    && t == s.(status := Publishing, expected := s.outgoing, clearing := false)
  }

  predicate RenameOutgoing(s: State, t: State) {
    && s.status == Publishing && s.destination == None && s.outgoing.Some? && s.outgoing == s.expected
    && t == s.(destination := s.outgoing, outgoing := None)
  }

  predicate CommitCleanup(s: State, t: State) {
    && s.status == Publishing && s.expected.Some? && s.destination == s.expected
    && t == s.(status := CleanupPending, reached := true, clearing := false)
  }

  /** The mission directory goes in any order, once the destination is validated. */
  predicate ShrinkMission(s: State, t: State) {
    && s.status == CleanupPending && s.destination == s.expected
    && Shrunk(s.part, t.part) && Shrunk(s.staged, t.staged) && Shrunk(s.marker, t.marker)
    && Shrunk(s.result, t.result) && Shrunk(s.outgoing, t.outgoing)
    && t == s.(part := t.part, staged := t.staged, marker := t.marker, result := t.result, outgoing := t.outgoing)
  }

  predicate CommitCompleted(s: State, t: State) {
    && s.status == CleanupPending && s.staged == None && s.part == None && s.result == None && s.outgoing == None
    && s.destination == s.expected
    && t == s.(status := Completed)
  }

  predicate Fail(s: State, t: State) {
    && s.status in {Moving, Processing, Publishing, CleanupPending}
    && t == s.(status := Failed, clearing := false)
  }

  predicate Stop(s: State, t: State) {
    t == s.(clearing := false)
  }

  predicate IngestStep(s: State, t: State) {
    || Claim(s, t) || TakeSource(s, t) || ChangePart(s, t) || Promote(s, t) || WriteMarker(s, t)
    || StartClearing(s, t) || ShrinkQuarantine(s, t) || CommitProcessing(s, t)
  }

  predicate DeliveryStep(s: State, t: State) {
    || ChangeResult(s, t) || ChangeOutgoing(s, t) || CommitPublishing(s, t) || RenameOutgoing(s, t)
    || CommitCleanup(s, t) || ShrinkMission(s, t) || CommitCompleted(s, t)
  }

  predicate ProgramStep(s: State, t: State) {
    IngestStep(s, t) || DeliveryStep(s, t) || Fail(s, t) || Stop(s, t)
  }

  // -------------------------------------------------------- steps of users

  /** Users do as they please at the path the batch was found at. */
  predicate ChangeSource(s: State, t: State) {
    t == s.(source := t.source)
  }

  predicate PlaceDestination(s: State, t: State) {
    s.destination == None && t == s.(destination := t.destination)
  }

  /** Taking the delivery after cleanup was reached ends the custody. */
  predicate TakeDestination(s: State, t: State) {
    t == s.(destination := None, delivered := s.delivered || s.reached)
  }

  predicate UserStep(s: State, t: State) {
    ChangeSource(s, t) || PlaceDestination(s, t) || TakeDestination(s, t)
  }

  predicate Initial(s: State) {
    s == State(s.source, None, None, None, None, None, None, s.destination, Ready, None, false,
               map[], false, false, false)
  }

  predicate Stepped(run: seq<State>, i: nat)
    requires i < |run| - 1
  {
    ProgramStep(run[i], run[i + 1]) || UserStep(run[i], run[i + 1])
  }

  ghost predicate Run(run: seq<State>) {
    && |run| > 0 && Initial(run[0])
    && forall i :: 0 <= i < |run| - 1 ==> Stepped(run, i)
  }

  lemma Extend(run: seq<State>, t: State)
    requires Run(run) && (ProgramStep(run[|run| - 1], t) || UserStep(run[|run| - 1], t))
    ensures Run(run + [t])
  {
    var longer := run + [t];
    forall i | 0 <= i < |longer| - 1 ensures Stepped(longer, i) {
      if i < |run| - 1 {
        assert Stepped(run, i);
      }
    }
  }

  // --------------------------------------------------------------- custody

  /** All of the batch is in one place, or its results were delivered. */
  predicate OriginalKept(s: State) {
    || s.quarantine == Some(s.original)
    || s.staged == Some(s.original)
    || (s.reached && s.expected.Some? && s.destination == s.expected)
  }

  predicate Inv(s: State) {
    && (!s.taken ==>
          && s.quarantine == None && s.staged == None && s.part == None && !s.reached
          && s.status in {Ready, Moving, Failed})
    && (s.taken && !s.reached ==>
          s.staged == Some(s.original) || (s.staged == None && s.quarantine == Some(s.original)))
    && (s.status in {Processing, Publishing} ==> s.taken && s.staged.Some? && !s.reached)
    && (s.status in {Ready, Moving} ==> !s.reached)
    && (s.status == Ready ==> !s.taken)
    && (s.status in {CleanupPending, Completed} ==> s.reached)
    && (s.reached ==> s.taken && s.expected.Some? && s.status in {CleanupPending, Completed, Failed})
    && (s.reached && !s.delivered ==> s.destination == s.expected)
    && (s.clearing ==> s.status in {Moving, Processing} && s.staged.Some?)
    && (s.delivered ==> s.reached)
    && (s.marker.Some? && !s.reached ==> s.taken && s.marker == Some(s.original))
  }

  lemma IngestKeepsInv(s: State, t: State)
    requires Inv(s) && IngestStep(s, t)
    ensures Inv(t)
  {
  }

  lemma DeliveryKeepsInv(s: State, t: State)
    requires Inv(s) && DeliveryStep(s, t)
    ensures Inv(t)
  {
  }

  lemma StepKeepsInv(s: State, t: State)
    requires Inv(s) && (ProgramStep(s, t) || UserStep(s, t))
    ensures Inv(t)
  {
    if IngestStep(s, t) {
      IngestKeepsInv(s, t);
    } else if DeliveryStep(s, t) {
      DeliveryKeepsInv(s, t);
    }
  }

  lemma {:induction false} RunKeepsInv(run: seq<State>, n: nat)
    requires Run(run) && n < |run|
    ensures Inv(run[n])
  {
    if n > 0 {
      RunKeepsInv(run, n - 1);
      assert Stepped(run, n - 1);
      StepKeepsInv(run[n - 1], run[n]);
    }
  }

  /** From the rename on, the batch is complete somewhere until it is delivered. */
  lemma OriginalNeverLost(run: seq<State>, n: nat)
    requires Run(run) && n < |run|
    requires run[n].taken && !run[n].delivered
    ensures OriginalKept(run[n])
  {
    RunKeepsInv(run, n);
  }

  /**
    The program touches the source path once, and then moves the whole tree
    into quarantine; whatever is put there later stays as it is.
   */
  lemma SourceTakenOnce(run: seq<State>, n: nat)
    requires Run(run) && n + 1 < |run| && ProgramStep(run[n], run[n + 1])
    requires run[n + 1].source != run[n].source
    ensures !run[n].taken && run[n + 1].taken
    ensures run[n].source == run[n + 1].quarantine == Some(run[n + 1].original)
    ensures run[n + 1].source == None
  {
    RunKeepsInv(run, n);
  }

  lemma NewcomerUntouched(run: seq<State>, i: nat, n: nat)
    requires Run(run) && i <= n && n + 1 < |run| && run[i].taken
    requires ProgramStep(run[n], run[n + 1])
    ensures run[n + 1].source == run[n].source && run[n + 1].original == run[i].original
  {
    StaysTaken(run, i, n);
    RunKeepsInv(run, n);
    TakenOnce(run[n], run[n + 1]);
  }

  /** After the rename no step touches the source path, nor what is known to have been there. */
  lemma TakenOnce(s: State, t: State)
    requires Inv(s) && s.taken && ProgramStep(s, t)
    ensures t.taken && t.source == s.source && t.original == s.original
  {
  }

  lemma {:induction false} StaysTaken(run: seq<State>, i: nat, n: nat)
    requires Run(run) && i <= n < |run| && run[i].taken
    ensures run[n].taken && run[n].original == run[i].original
  {
    if i < n {
      StaysTaken(run, i, n - 1);
      RunKeepsInv(run, n - 1);
      assert Stepped(run, n - 1);
      if ProgramStep(run[n - 1], run[n]) {
        TakenOnce(run[n - 1], run[n]);
      }
    }
  }

  /** The pending copy of the batch goes only after the delivery was validated. */
  lemma PendingSourceOutlivesDelivery(run: seq<State>, n: nat)
    requires Run(run) && n + 1 < |run| && ProgramStep(run[n], run[n + 1])
    requires run[n].staged.Some? && run[n + 1].staged != run[n].staged
    ensures run[n].status == CleanupPending && run[n].expected.Some?
    ensures run[n].destination == run[n].expected == run[n + 1].destination
  {
    RunKeepsInv(run, n);
  }
}
