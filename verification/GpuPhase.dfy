/**
  The phase protocol between a task's worker processes and its parent: every
  interleaving of worker, parent, cancellation, time-outs and kills.
 */
module GpuPhase {
  import opened Wrappers
  import opened PhaseControl

  /** A persistent worker may serve further tasks; a one-shot worker ends with its task. */
  datatype Kind = OneShot | Persistent

  datatype Worker =
    | Idle
    | AwaitGrant(owner: Owner)
    | Computing(owner: Owner)
    | AwaitRelease
    | AwaitFailed
    | Unwinding
    | Finished

  datatype Message = Message(sequence: nat, action: Action) | Done(success: bool)

  datatype Reply = Reply(sequence: nat, result: Result<bool, Error>)

  /**
    `Killed` is after the tree was told to die, `Confirmed` after its top
    process was waited for, `Quiet` after a worker finished and will be reused.
    `Unconfirmed` is after closing it failed; `TaskEnded` remembers whether it had.
   */
  datatype Stage = Serving | Closing | Killed | Confirmed | Quiet | Unconfirmed | Released | TaskEnded(unconfirmed: bool)

  /**
    `top` and `kids`: the worker process and its descendants are alive. `doomed`:
    their tree was killed. `holds`: the worker's GPU state may still be in use.
   */
  datatype State = State(
    kind: Kind, worker: Worker, sequence: nat, holds: bool, top: bool, kids: bool, doomed: bool,
    toParent: Option<Message>, toWorker: Option<Reply>, stage: Stage, activePhase: bool, book: Book)

  function Start(kind: Kind): State {
    State(kind, Idle, 0, false, true, false, false, None, None, Serving, false, Book(None, None, {}, {}))
  }

  /** The GPU is in use by some process of the tree. */
  predicate UsesGpu(s: State) { s.holds && (s.top || s.kids) }

  predicate LeaseHeld(s: State) { s.book.lease.Some? && s.book.lease.value in s.book.leases }

  // ------------------------------------------------------------ worker steps

  function Send(s: State, worker: Worker, action: Action): State {
    s.(worker := worker, sequence := s.sequence + 1, toParent := Some(Message(s.sequence + 1, action)))
  }

  ghost predicate AskStep(s: State, t: State) {
    s.top && s.worker == Idle && exists owner :: t == Send(s, AwaitGrant(owner), Acquire(owner))
  }

  /** A reply out of turn or with an error ends the worker; a refusal makes it ask again. */
  predicate GrantStep(s: State, t: State) {
    && s.top && s.worker.AwaitGrant? && s.toWorker.Some?
    && var reply := s.toWorker.value;
       t == if reply.sequence != s.sequence || reply.result.Err? then s.(worker := Unwinding, toWorker := None)
            else if reply.result.value then s.(worker := Computing(s.worker.owner), holds := true, toWorker := None)
            else s.(worker := Idle, toWorker := None)
  }

  predicate LeaveStep(s: State, t: State) {
    s.top && s.worker.Computing? && t == Send(s.(holds := false), AwaitRelease, Release(s.worker.owner.phase, false))
  }

  /** A failed computation may keep its tensors until the process is gone. */
  ghost predicate FailStep(s: State, t: State) {
    s.top && s.worker.Computing? && exists oom :: t == Send(s, AwaitFailed, Failed(s.worker.owner.phase, oom))
  }

  predicate LeftStep(s: State, t: State) {
    && s.top && (s.worker == AwaitRelease || s.worker == AwaitFailed) && s.toWorker.Some?
    && var reply := s.toWorker.value;
       t == if s.worker == AwaitRelease && reply.sequence == s.sequence && reply.result.Ok?
            then s.(worker := Idle, toWorker := None) else s.(worker := Unwinding, toWorker := None)
  }

  predicate ReportStep(s: State, t: State) {
    && s.kind == Persistent && s.top && (s.worker == Idle || s.worker == Unwinding)
    && t == s.(worker := Finished, toParent := Some(Done(s.worker == Idle)))
  }

  predicate SpawnStep(s: State, t: State) { s.top && !s.doomed && t == s.(kids := true) }

  predicate KidsExitStep(s: State, t: State) { t == s.(kids := false) }

  /** The top process ends, by itself or not; a kill already sent has then reached its descendants. */
  predicate ExitStep(s: State, t: State) { s.top && t == s.(top := false, kids := s.kids && !s.doomed) }

  /** Cancelling a task kills its tree; so does the parent. Without its top process the rest dies at once. */
  function Doom(s: State): State { s.(doomed := true, kids := s.kids && s.top) }

  predicate CancelStep(s: State, t: State) { t == Doom(s) }

  ghost predicate TalkStep(s: State, t: State) {
    AskStep(s, t) || GrantStep(s, t) || LeaveStep(s, t) || FailStep(s, t) || LeftStep(s, t) || ReportStep(s, t)
  }

  predicate ProcessStep(s: State, t: State) {
    SpawnStep(s, t) || KidsExitStep(s, t) || ExitStep(s, t) || CancelStep(s, t)
  }

  // ------------------------------------------------------------ parent steps

  /** A one-shot worker's messages are read by a thread that is joined only after the worker is dead. */
  predicate Listening(s: State) {
    s.stage == Serving || (s.kind == OneShot && (s.stage == Closing || s.stage == Killed))
  }

  /** The parent's answer to one message. */
  function Handled(s: State, c: Circumstance): State
    requires s.toParent.Some? && s.toParent.value.Message?
  {
    var message := s.toParent.value;
    var (book, result) := Control(s.book, message.action, c);
    s.(book := book, toParent := None, toWorker := Some(Reply(message.sequence, result)),
       activePhase := if result.Err? then s.activePhase
                      else if message.action.Acquire? then s.activePhase || result.value
                      else s.activePhase && !message.action.Release?,
       stage := if s.kind == Persistent && result.Err? then Closing else s.stage)
  }

  predicate IsHandled(s: State, t: State, c: Circumstance) {
    s.toParent.Some? && s.toParent.value.Message? && t == Handled(s, c)
  }

  ghost predicate HandleStep(s: State, t: State) {
    Listening(s) && exists c :: IsHandled(s, t, c)
  }

  /** A finished persistent worker is kept only when it was successful, left its phases and has no descendants. */
  predicate DoneStep(s: State, t: State) {
    && s.stage == Serving && s.kind == Persistent && s.toParent.Some? && s.toParent.value.Done?
    && (t == s.(toParent := None, stage := Closing)
        || (s.toParent.value.success && !s.activePhase && !s.kids && t == s.(toParent := None, stage := Quiet)))
  }

  /** Time-outs, transport errors and the end of the worker make the parent stop listening. */
  predicate GiveUpStep(s: State, t: State) { s.stage == Serving && t == s.(stage := Closing) }

  predicate KillStep(s: State, t: State) { s.stage == Closing && t == Doom(s).(stage := Killed) }

  predicate ConfirmStep(s: State, t: State) { s.stage == Killed && !s.top && t == s.(stage := Confirmed) }

  /**
    Closing a persistent worker raises: its tree could not be terminated, or the
    wait of ten seconds for its death expired. No clean-up follows.
   */
  predicate CloseFailsStep(s: State, t: State) {
    s.kind == Persistent && (s.stage == Closing || s.stage == Killed) && t == s.(stage := Unconfirmed)
  }

  predicate CleanupStep(s: State, t: State) {
    (s.stage == Confirmed || s.stage == Quiet) && t == s.(book := Cleaned(s.book), stage := Released)
  }

  /** A clean-up that raises leaves the leases to the end of the task; a kept worker is closed first. */
  predicate CleanupFailsStep(s: State, t: State) {
    || (s.stage == Confirmed && t == s.(stage := Released))
    || (s.stage == Quiet && t == s.(stage := Closing))
  }

  predicate EndStep(s: State, t: State) {
    (s.stage == Released || s.stage == Unconfirmed) && t == s.(book := Ended(s.book), stage := TaskEnded(s.stage == Unconfirmed))
  }

  ghost predicate ParentStep(s: State, t: State) {
    || HandleStep(s, t) || DoneStep(s, t) || GiveUpStep(s, t) || KillStep(s, t) || ConfirmStep(s, t)
    || CloseFailsStep(s, t) || CleanupStep(s, t) || CleanupFailsStep(s, t) || EndStep(s, t)
  }

  ghost predicate Step(s: State, t: State) { TalkStep(s, t) || ProcessStep(s, t) || ParentStep(s, t) }

  ghost predicate Stepped(run: seq<State>, i: nat)
    requires i + 1 < |run|
  {
    Step(run[i], run[i + 1])
  }

  ghost predicate Run(run: seq<State>) {
    && run != [] && run[0] == Start(run[0].kind)
    && forall i :: 0 <= i < |run| - 1 ==> Stepped(run, i)
  }

  // --------------------------------------------------------------- invariant

  /** What is under way between the two sides. */
  predicate Talk(s: State) {
    && (s.toParent.Some? ==> s.toWorker == None)
    && (s.worker == Idle || s.worker.Computing? || s.worker == Unwinding ==> s.toParent == None && s.toWorker == None)
    && (s.worker == Finished ==> s.toWorker == None && (s.toParent.Some? ==> s.toParent.value.Done?))
    && (s.toWorker.Some? ==> s.toWorker.value.sequence == s.sequence)
    && (s.toParent.Some? && s.toParent.value.Message? ==>
          && s.toParent.value.sequence == s.sequence
          && s.toParent.value.action.Acquire? == s.worker.AwaitGrant?
          && s.toParent.value.action.Release? == s.worker.AwaitRelease?)
    && (s.toParent.Some? && s.toParent.value.Done? ==> s.worker == Finished)
  }

  /** Where the worker's GPU state can be. */
  predicate Placed(s: State) {
    && (s.worker == Idle || s.worker.AwaitGrant? || s.worker == AwaitRelease ==> !s.holds)
    && (s.worker == Finished && s.toParent == Some(Done(true)) ==> !s.holds)
    && (s.doomed && !s.top ==> !s.kids)
    && (s.stage == Killed || s.stage == Confirmed ==> s.doomed)
    && (s.stage == Confirmed ==> !s.top)
    && (s.stage == Quiet ==> s.worker == Finished && !s.holds && s.toParent == None)
  }

  /** Dead, or done with the GPU for good. */
  predicate Over(s: State) {
    (!s.top && !s.kids) || (s.worker == Finished && !s.holds)
  }

  /** What the lease is needed for: a computation, or a grant on its way to a live worker. */
  predicate NeedsLease(s: State) {
    || UsesGpu(s)
    || (s.top && s.worker.AwaitGrant? && s.toWorker.Some? && s.toWorker.value.result == Ok(true))
  }

  predicate Settled(s: State) {
    && (s.stage == Released || s.stage == TaskEnded(false) ==> Over(s))
    && (s.stage.TaskEnded? ==> s.book.leases == {})
    && (s.kind == OneShot ==> s.stage != Unconfirmed && s.stage != TaskEnded(true))
  }

  predicate Inv(s: State) {
    && Talk(s) && Placed(s) && Accounted(s.book) && Settled(s)
    && (!s.stage.TaskEnded? && NeedsLease(s) ==> LeaseHeld(s))
  }

  lemma GrantKeepsInv(s: State, t: State)
    requires Inv(s) && GrantStep(s, t)
    ensures Inv(t)
  {
  }

  lemma LeftKeepsInv(s: State, t: State)
    requires Inv(s) && LeftStep(s, t)
    ensures Inv(t)
  {
  }

  lemma SendKeepsInv(s: State, t: State)
    requires Inv(s) && (AskStep(s, t) || LeaveStep(s, t) || FailStep(s, t) || ReportStep(s, t))
    ensures Inv(t)
  {
  }

  lemma ProcessKeepsInv(s: State, t: State)
    requires Inv(s) && ProcessStep(s, t)
    ensures Inv(t)
  {
  }

  lemma HandleKeepsInv(s: State, t: State)
    requires Inv(s) && HandleStep(s, t)
    ensures Inv(t)
  {
    var c :| IsHandled(s, t, c);
    ControlKeepsAccount(s.book, s.toParent.value.action, c);
    if LeaseHeld(s) {
      OnlyReleaseGivesUp(s.book, s.toParent.value.action, c);
    }
  }

  lemma ClosingKeepsInv(s: State, t: State)
    requires Inv(s) && (DoneStep(s, t) || GiveUpStep(s, t) || KillStep(s, t) || ConfirmStep(s, t) || CloseFailsStep(s, t))
    ensures Inv(t)
  {
  }

  lemma EndingKeepsInv(s: State, t: State)
    requires Inv(s) && (CleanupStep(s, t) || CleanupFailsStep(s, t) || EndStep(s, t))
    ensures Inv(t)
  {
    NothingLeft(s.book);
  }

  lemma {:induction false} RunKeepsInv(run: seq<State>)
    requires Run(run)
    ensures Inv(run[|run| - 1])
  {
    if |run| > 1 {
      var n := |run| - 1;
      RunKeepsInv(Earlier(run));
      if TalkStep(run[n - 1], run[n]) {
        if GrantStep(run[n - 1], run[n]) {
          GrantKeepsInv(run[n - 1], run[n]);
        } else if LeftStep(run[n - 1], run[n]) {
          LeftKeepsInv(run[n - 1], run[n]);
        } else {
          SendKeepsInv(run[n - 1], run[n]);
        }
      } else if ProcessStep(run[n - 1], run[n]) {
        ProcessKeepsInv(run[n - 1], run[n]);
      } else if HandleStep(run[n - 1], run[n]) {
        HandleKeepsInv(run[n - 1], run[n]);
      } else if CleanupStep(run[n - 1], run[n]) || CleanupFailsStep(run[n - 1], run[n]) || EndStep(run[n - 1], run[n]) {
        EndingKeepsInv(run[n - 1], run[n]);
      } else {
        ClosingKeepsInv(run[n - 1], run[n]);
      }
    }
  }

  // ---------------------------------------------------------------- theorems

  /**
    In every interleaving the GPU is used without a lease exactly when the task
    ended after a failed close while the worker's tree was still using it.
   */
  lemma UsedWithoutLeaseIff(run: seq<State>)
    requires Run(run)
    ensures var s := run[|run| - 1];
            UsesGpu(s) && !LeaseHeld(s) <==> s.stage == TaskEnded(true) && UsesGpu(s)
  {
    RunKeepsInv(run);
  }

  /** So the lease always outlives the use where death is confirmed; one-shot workers always confirm it. */
  lemma ConfirmedDeathIsSafe(run: seq<State>)
    requires Run(run)
    requires run[0].kind == OneShot || forall i :: 0 <= i < |run| ==> run[i].stage != Unconfirmed
    ensures UsesGpu(run[|run| - 1]) ==> LeaseHeld(run[|run| - 1])
  {
    KindNeverChanges(run);
    if run[0].kind == Persistent {
      NeverUnconfirmed(run);
    }
    RunKeepsInv(run);
  }

  lemma StepKeepsKind(s: State, t: State)
    requires Step(s, t)
    ensures t.kind == s.kind
  {
    hide Control, TalkStep, ProcessStep, HandleStep;
    if TalkStep(s, t) || ProcessStep(s, t) {
      WorkerMovesNoStage(s, t);
    } else if HandleStep(s, t) {
      HandlingOnlyCloses(s, t);
    }
  }

  /** Only a failed close leads to such an end. */
  lemma EntersUnconfirmedEnd(s: State, t: State)
    requires Step(s, t) && t.stage == TaskEnded(true) && s.stage != TaskEnded(true)
    ensures s.stage == Unconfirmed && EndStep(s, t)
  {
    hide Control, TalkStep, ProcessStep, HandleStep;
    if TalkStep(s, t) || ProcessStep(s, t) {
      WorkerMovesNoStage(s, t);
    } else if HandleStep(s, t) {
      HandlingOnlyCloses(s, t);
    }
  }

  lemma HandlingOnlyCloses(s: State, t: State)
    requires HandleStep(s, t)
    ensures (t.stage == s.stage || t.stage == Closing) && t.kind == s.kind
  {
    hide Control;
  }

  lemma WorkerMovesNoStage(s: State, t: State)
    requires TalkStep(s, t) || ProcessStep(s, t)
    ensures t.stage == s.stage && t.kind == s.kind
  {
  }

  lemma {:induction false} KindNeverChanges(run: seq<State>)
    requires Run(run)
    ensures run[|run| - 1].kind == run[0].kind
  {
    if |run| > 1 {
      KindNeverChanges(Earlier(run));
      StepKeepsKind(run[|run| - 2], run[|run| - 1]);
    }
  }

  /** The run before its last step. */
  ghost function Earlier(run: seq<State>): (earlier: seq<State>)
    requires Run(run) && |run| > 1
    ensures Run(earlier) && earlier + [run[|run| - 1]] == run && Step(run[|run| - 2], run[|run| - 1])
  {
    var n := |run| - 1;
    assert forall i :: 0 <= i < n - 1 ==> Stepped(run[..n], i) by {
      forall i | 0 <= i < n - 1 ensures Stepped(run[..n], i) {
        assert Stepped(run, i);
      }
    }
    assert Stepped(run, n - 1);
    run[..n]
  }

  lemma {:induction false} NeverUnconfirmed(run: seq<State>)
    requires Run(run) && forall i :: 0 <= i < |run| ==> run[i].stage != Unconfirmed
    ensures run[|run| - 1].stage != TaskEnded(true)
  {
    if |run| > 1 {
      var earlier := Earlier(run);
      forall i | 0 <= i < |earlier| ensures earlier[i].stage != Unconfirmed {
        assert run[i].stage != Unconfirmed;
      }
      NeverUnconfirmed(earlier);
      if run[|run| - 1].stage == TaskEnded(true) {
        EntersUnconfirmedEnd(run[|run| - 2], run[|run| - 1]);
      }
    }
  }

  /** No lease is left when the task has ended, however it ended. */
  lemma NoLeaseIsLeft(run: seq<State>)
    requires Run(run) && run[|run| - 1].stage.TaskEnded?
    ensures run[|run| - 1].book.leases == {}
  {
    RunKeepsInv(run);
  }

  /** A lease that is in use is given back only by the end of a task after a failed close. */
  lemma InUseIsNotReleased(run: seq<State>, t: State)
    requires Run(run) && Step(run[|run| - 1], t) && UsesGpu(run[|run| - 1]) && UsesGpu(t)
    requires LeaseHeld(run[|run| - 1]) && !LeaseHeld(t)
    ensures run[|run| - 1].stage == Unconfirmed && EndStep(run[|run| - 1], t)
  {
    RunKeepsInv(run);
    Extended(run, t);
    UsedWithoutLeaseIff(run + [t]);
    EntersUnconfirmedEnd(run[|run| - 1], t);
  }

  lemma Extended(run: seq<State>, t: State)
    requires Run(run) && Step(run[|run| - 1], t)
    ensures Run(run + [t])
  {
    forall i | 0 <= i < |run| ensures Stepped(run + [t], i) {
      assert i < |run| - 1 ==> Stepped(run, i);
    }
  }

  // ------------------------------------------------- what a release gives back

  /** The database holds no lease of the task but the one it knows of. */
  predicate Tight(b: Book) {
    b.leases <= if b.lease.Some? then {b.lease.value} else {}
  }

  predicate NothingHeld(b: Book) { b.lease == None && b.leases == {} }

  predicate Answered(s: State) { s.toWorker.Some? && s.toWorker.value.result.Ok? }

  predicate Refused(s: State) { Answered(s) && !s.toWorker.value.result.value }

  /** What the worker was told about its leases is so. */
  predicate Booked(s: State) {
    && (s.worker == Idle ==> NothingHeld(s.book))
    && (s.worker.AwaitGrant? && (s.toWorker == None || Refused(s)) ==> NothingHeld(s.book))
    && (s.worker.AwaitGrant? && Answered(s) ==> Tight(s.book))
    && (s.worker.Computing? || s.worker == AwaitFailed ==> Tight(s.book))
    && (s.worker == AwaitRelease && s.toWorker == None ==> Tight(s.book))
    && (s.worker == AwaitRelease && Answered(s) ==> NothingHeld(s.book))
    && (s.worker == Finished && s.toParent == Some(Done(true)) ==> NothingHeld(s.book))
    && (s.worker.AwaitGrant? || s.worker == AwaitRelease ==> s.toParent.Some? || s.toWorker.Some?)
    && (s.toParent.Some? ==> s.toWorker == None)
    && (s.toParent.Some? && s.toParent.value.Message? ==>
          && s.toParent.value.action.Acquire? == s.worker.AwaitGrant?
          && s.toParent.value.action.Release? == s.worker.AwaitRelease?)
  }

  lemma AnswerKeepsBooks(s: State, t: State)
    requires Booked(s) && (GrantStep(s, t) || LeftStep(s, t))
    ensures Booked(t)
  {
  }

  lemma SendKeepsBooks(s: State, t: State)
    requires Talk(s) && Booked(s) && (AskStep(s, t) || LeaveStep(s, t) || FailStep(s, t) || ReportStep(s, t))
    ensures Booked(t)
  {
  }

  lemma ProcessKeepsBooks(s: State, t: State)
    requires Booked(s) && ProcessStep(s, t)
    ensures Booked(t)
  {
  }

  lemma HandleKeepsBooks(s: State, t: State)
    requires Inv(s) && Booked(s) && HandleStep(s, t)
    ensures Booked(t)
  {
    hide Control, Inv;
    var c :| IsHandled(s, t, c);
    var (after, r) := Control(s.book, s.toParent.value.action, c);
    assert t.book == after && t.worker == s.worker && t.toParent == None && t.toWorker.value.result == r;
    match s.toParent.value.action
    case Acquire(owner) =>
      GrantIsBooked(s.book, owner, c);
      assert s.worker.AwaitGrant? && NothingHeld(s.book);
      if r.Ok? && r.value {
        assert r == Ok(true);
      } else if r.Ok? {
        assert r == Ok(false);
      }
    case Release(phase, oom) =>
      ReleaseGivesBack(s.book, phase, oom, c);
      assert r.Ok? ==> NothingHeld(after);
    case Failed(phase, oom) =>
      FailureKeepsLease(s.book, phase, oom, c);
  }

  lemma ClosingKeepsBooks(s: State, t: State)
    requires Talk(s) && Booked(s)
    requires DoneStep(s, t) || GiveUpStep(s, t) || KillStep(s, t) || ConfirmStep(s, t) || CloseFailsStep(s, t)
             || CleanupFailsStep(s, t)
    ensures Booked(t)
  {
    if DoneStep(s, t) {
      assert s.worker == Finished && t.worker == Finished && t.toParent == None;
    } else {
      assert t.worker == s.worker && t.book == s.book && t.toParent == s.toParent && t.toWorker == s.toWorker;
    }
  }

  lemma EndingKeepsBooks(s: State, t: State)
    requires Accounted(s.book) && Booked(s) && (CleanupStep(s, t) || EndStep(s, t))
    ensures Booked(t)
  {
    NothingLeft(s.book);
    assert NothingHeld(s.book) ==> NothingHeld(t.book);
    assert Tight(t.book);
  }

  lemma {:induction false} RunKeepsBooks(run: seq<State>)
    requires Run(run)
    ensures Booked(run[|run| - 1])
  {
    if |run| > 1 {
      var s, t := run[|run| - 2], run[|run| - 1];
      var earlier := Earlier(run);
      RunKeepsBooks(earlier);
      RunKeepsInv(earlier);
      hide Booked, Control, HandleStep, Placed, Accounted, Settled, Talk;
      if GrantStep(s, t) || LeftStep(s, t) {
        AnswerKeepsBooks(s, t);
      } else if TalkStep(s, t) {
        SendKeepsBooks(s, t);
      } else if ProcessStep(s, t) {
        ProcessKeepsBooks(s, t);
      } else if HandleStep(s, t) {
        HandleKeepsBooks(s, t);
      } else if CleanupStep(s, t) || EndStep(s, t) {
        EndingKeepsBooks(s, t);
      } else {
        ClosingKeepsBooks(s, t);
      }
    }
  }

  /**
    Whenever the worker was told, or is being told, that its release went
    through, and until a grant answers a later request, the task knows of no
    lease and the database holds none of it.
   */
  lemma ReleaseIsReal(run: seq<State>)
    requires Run(run)
    ensures var s := run[|run| - 1];
            s.worker == Idle
            || (s.worker == AwaitRelease && s.toWorker.Some? && s.toWorker.value.result.Ok?)
            || (s.worker.AwaitGrant? && (s.toWorker == None || (s.toWorker.value.result.Ok? && !s.toWorker.value.result.value))) ==>
              s.book.lease == None && s.book.leases == {}
  {
    RunKeepsBooks(run);
  }

  // ------------------------------------------------- the wait that expires

  function Smooth(): Circumstance {
    Circumstance(true, true, false, true, Granted(true), true, true, false)
  }

  /** A worker in its phase cannot be killed within ten seconds: the task ends and its lease is gone. */
  lemma ExpiredWaitIsReachable() returns (run: seq<State>)
    ensures Run(run) && UsesGpu(run[|run| - 1]) && !LeaseHeld(run[|run| - 1])
  {
    var owner := Owner(0, 1);
    var s0 := Start(Persistent);
    var s1 := Send(s0, AwaitGrant(owner), Acquire(owner));
    var (book, result) := Control(s1.book, Acquire(owner), Smooth());
    var s2 := s1.(book := book, toParent := None, toWorker := Some(Reply(1, Ok(true))), activePhase := true);
    var s3 := s2.(worker := Computing(owner), holds := true, toWorker := None);
    var s4 := s3.(stage := Closing);
    var s5 := Doom(s4).(stage := Killed);
    var s6 := s5.(stage := Unconfirmed);
    var s7 := s6.(book := Ended(s6.book), stage := TaskEnded(true));
    assert AskStep(s0, s1);
    assert result == Ok(true);
    assert IsHandled(s1, s2, Smooth());
    assert HandleStep(s1, s2);
    assert GrantStep(s2, s3) && GiveUpStep(s3, s4) && KillStep(s4, s5) && CloseFailsStep(s5, s6) && EndStep(s6, s7);
    run := [s0];
    Extended(run, s1);
    run := run + [s1];
    Extended(run, s2);
    run := run + [s2];
    Extended(run, s3);
    run := run + [s3];
    Extended(run, s4);
    run := run + [s4];
    Extended(run, s5);
    run := run + [s5];
    Extended(run, s6);
    run := run + [s6];
    Extended(run, s7);
    run := run + [s7];
  }

  // --------------------------------------------------------- the run without trouble

  /** One phase from an idle worker to an idle worker, with its lease held exactly while it computes. */
  lemma PhaseIsServed(run: seq<State>, owner: Owner) returns (longer: seq<State>, middle: nat)
    requires Run(run)
    requires var s := run[|run| - 1];
             s.top && s.worker == Idle && s.stage == Serving && s.toParent == None && s.toWorker == None
             && NothingHeld(s.book) && !s.activePhase
    ensures Run(longer) && run <= longer && |run| <= middle < |longer|
    ensures longer[middle].worker == Computing(owner) && UsesGpu(longer[middle]) && LeaseHeld(longer[middle])
    ensures var s, t := run[|run| - 1], longer[|longer| - 1];
            t == s.(sequence := s.sequence + 2, holds := false, book := t.book, activePhase := false)
            && NothingHeld(t.book)
  {
    var s0 := run[|run| - 1];
    var s1 := Send(s0, AwaitGrant(owner), Acquire(owner));
    var s2 := Handled(s1, Smooth());
    var s3 := s2.(worker := Computing(owner), holds := true, toWorker := None);
    var s4 := Send(s3.(holds := false), AwaitRelease, Release(owner.phase, false));
    var s5 := Handled(s4, Smooth());
    var s6 := s5.(worker := Idle, toWorker := None);
    GrantIsBooked(s1.book, owner, Smooth());
    ReleaseGivesBack(s4.book, owner.phase, false, Smooth());
    assert AskStep(s0, s1);
    Extended(run, s1);
    assert IsHandled(s1, s2, Smooth());
    assert HandleStep(s1, s2);
    Extended(run + [s1], s2);
    assert GrantStep(s2, s3);
    Extended(run + [s1] + [s2], s3);
    assert LeaveStep(s3, s4);
    Extended(run + [s1] + [s2] + [s3], s4);
    assert IsHandled(s4, s5, Smooth());
    assert HandleStep(s4, s5);
    Extended(run + [s1] + [s2] + [s3] + [s4], s5);
    assert LeftStep(s5, s6);
    Extended(run + [s1] + [s2] + [s3] + [s4] + [s5], s6);
    longer := run + [s1] + [s2] + [s3] + [s4] + [s5] + [s6];
    middle := |run| + 2;
  }

  /**
    Wherever a task that is still served stands, giving it up, killing its tree
    and waiting for it ends the task with every process dead and no lease left.
   */
  lemma GivenUpTaskEnds(run: seq<State>) returns (longer: seq<State>)
    requires Run(run) && run[|run| - 1].stage == Serving
    ensures Run(longer) && run <= longer
    ensures var t := longer[|longer| - 1];
            t.stage == TaskEnded(false) && !t.top && !t.kids && t.book.leases == {} && t.book.lease == None
  {
    var s := run[|run| - 1];
    var closing := s.(stage := Closing);
    var killed := Doom(closing).(stage := Killed);
    assert GiveUpStep(s, closing);
    Extended(run, closing);
    assert KillStep(closing, killed);
    Extended(run + [closing], killed);
    longer := run + [closing] + [killed];
    var dead := killed;
    if killed.top {
      dead := killed.(top := false, kids := false);
      assert ExitStep(killed, dead);
      Extended(longer, dead);
      longer := longer + [dead];
    }
    var confirmed := dead.(stage := Confirmed);
    assert ConfirmStep(dead, confirmed);
    Extended(longer, confirmed);
    longer := longer + [confirmed];
    var clean := confirmed.(book := Cleaned(confirmed.book), stage := Released);
    assert CleanupStep(confirmed, clean);
    Extended(longer, clean);
    longer := longer + [clean];
    var ended := clean.(book := Ended(clean.book), stage := TaskEnded(false));
    assert EndStep(clean, ended);
    Extended(longer, ended);
    longer := longer + [ended];
    NoLeaseIsLeft(longer);
  }

  /** A refused message closes a worker that would have been kept, and leaves a one-shot worker to its own end. */
  lemma RefusalClosesKeptWorker(s: State, t: State)
    requires HandleStep(s, t)
    ensures t.toWorker.Some? && t.toWorker.value.sequence == s.toParent.value.sequence
    ensures t.stage == Closing <==> s.stage == Closing || (s.kind == Persistent && t.toWorker.value.result.Err?)
    ensures t.stage != s.stage ==> t.stage == Closing
  {
    hide Control;
  }

  /** A task of two phases ends quietly: its worker is kept and no lease is left. */
  lemma TwoPhasesAreServed(first: Owner, second: Owner) returns (run: seq<State>)
    ensures Run(run) && run[|run| - 1].stage == TaskEnded(false) && run[|run| - 1].top && run[|run| - 1].book.leases == {}
    ensures exists i, j :: 0 <= i < j < |run| && run[i].worker == Computing(first) && run[j].worker == Computing(second)
  {
    var start := Start(Persistent);
    run := [start];
    var i, j;
    run, i := PhaseIsServed(run, first);
    var n := |run|;
    run, j := PhaseIsServed(run, second);
    assert run[i].worker == Computing(first) && run[j].worker == Computing(second) && i < n <= j;
    var idle := run[|run| - 1];
    var reported := idle.(worker := Finished, toParent := Some(Done(true)));
    var quiet := reported.(toParent := None, stage := Quiet);
    var clean := quiet.(book := Cleaned(quiet.book), stage := Released);
    var ended := clean.(book := Ended(clean.book), stage := TaskEnded(false));
    assert ReportStep(idle, reported);
    Extended(run, reported);
    run := run + [reported];
    assert DoneStep(reported, quiet);
    Extended(run, quiet);
    run := run + [quiet];
    assert CleanupStep(quiet, clean);
    Extended(run, clean);
    run := run + [clean];
    assert EndStep(clean, ended);
    Extended(run, ended);
    run := run + [ended];
    NoLeaseIsLeft(run);
    assert run[i].worker == Computing(first) && run[j].worker == Computing(second);
  }
}
