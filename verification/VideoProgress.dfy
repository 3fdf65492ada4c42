/**
  Video compression gets done: from which states the ticks of the schedule end
  in a completed mission, whatever was interrupted before, and in how many.
 */
module VideoProgress {
  import opened Wrappers
  import opened VideoCustody
  import opened VideoMission

  /** The tools do their work, and new files are new: `base` and the next number are free. */
  predicate Works(tools: Tools, s: State) {
    && tools.probed && tools.encoded && tools.copied
    && tools.sourceValid && tools.workValid && tools.stagingValid && tools.outputValid
    && tools.workInode !in s.data && tools.stagingInode !in s.data && tools.workInode != tools.stagingInode
  }

  /** What the attempt has on record so far does not speak against the file `p` as its output. */
  predicate OnFile(s: State, p: Place) {
    && s.attempts in s.ops
    && (Source in s.names ==> At(s, Source) == Some(s.ops[s.attempts].source))
    && (Source !in s.names ==> s.ops[s.attempts].events >= 3)
    && (s.ops[s.attempts].events >= 2 ==> s.ops[s.attempts].output == At(s, p))
  }

  /** The file `p` can be what the mission delivers. */
  predicate Good(lineage: bool, s: State, p: Place) {
    CompleteAt(s, p) && (lineage ==> OnFile(s, p))
  }

  predicate NotForeign(s: State) {
    Staging in s.names && Output in s.names ==> s.names[Staging] == s.names[Output]
  }

  /** Nothing of a former attempt is in the way. */
  predicate Clean(s: State) {
    CompleteAt(s, Source) && Output !in s.names && Staging !in s.names && Work !in s.names
  }

  predicate Resumable(lineage: bool, s: State) {
    match s.status
    case CleanupPending => Good(lineage, s, Output) && NotForeign(s)
    case Validating =>
      NotForeign(s) &&
      if Source !in s.names then Good(lineage, s, Output)
      else if Staging in s.names then Good(lineage, s, Staging)
      else Output !in s.names
    case Processing =>
      if Source !in s.names then Good(lineage, s, Output) && NotForeign(s)
      else if Output in s.names then Staging in s.names && NotForeign(s) && Good(lineage, s, Output)
      else CompleteAt(s, Staging) ==> Good(lineage, s, Staging)
    case Ready => Clean(s)
    case WaitingStable => Clean(s)
    case Unregistered => Clean(s)
    case Completed => Clean(s)
    case Failed => Clean(s) && !SeenAlready(s)
  }

  /** How many ticks that takes. */
  function Ticks(s: State): nat {
    var anew := if s.status in {Unregistered, Completed} || !SeenAlready(s) then 2 else 1;
    match s.status
    case CleanupPending => 1
    case Validating => if Source !in s.names then 1 else if Staging in s.names then 2 else 1 + anew
    case Processing =>
      if Source !in s.names then 1 else if Output in s.names then 2 else if CompleteAt(s, Staging) then 3 else 1 + anew
    case _ => anew
  }

  lemma AcceptsOnFile(s: State)
    requires CompleteAt(s, Output)
    ensures LineageAccepts(s) <==> OnFile(s, Output)
  {
  }

  lemma AcceptsStaging(s: State)
    requires CompleteAt(s, Staging) && Output !in s.names
    ensures LineageAccepts(s.(names := s.names[Output := s.names[Staging]])) <==> OnFile(s, Staging)
  {
    var linked := s.(names := s.names[Output := s.names[Staging]]);
    assert At(linked, Output) == At(s, Staging) && At(linked, Source) == At(s, Source);
  }

  lemma RecordIsOnFile(s: State)
    requires OnRecord(s)
    ensures OnFile(s, Output)
  {
  }

  /** What a cleanup asks for, without saying how it asks. */
  lemma CleanupRunsIff(lineage: bool, s: State, tools: Tools)
    requires tools.outputValid && s.status == CleanupPending
    ensures CleanupRuns(lineage, s, tools) <==> Resumable(lineage, s)
  {
    if CompleteAt(s, Output) {
      AcceptsOnFile(s);
    }
  }

  lemma ValidatingIs(lineage: bool, s: State, tools: Tools)
    requires Works(tools, s) && s.status == Validating && Files(s) && (Source in s.names ==> CompleteAt(s, Source))
    ensures ValidatingResult(lineage, s, tools) ==
            if !Resumable(lineage, s) then Failed
            else if Source !in s.names then Completed
            else if Staging in s.names then CleanupPending else Ready
  {
    if CompleteAt(s, Output) {
      AcceptsOnFile(s);
      assert SameFile(s, Staging, Output) ==> At(s, Staging) == At(s, Output);
    }
    if CompleteAt(s, Staging) && Output !in s.names {
      AcceptsStaging(s);
    }
  }

  lemma ProcessingIs(lineage: bool, s: State, tools: Tools)
    requires Works(tools, s) && s.status == Processing && Files(s) && (Source in s.names ==> CompleteAt(s, Source))
    ensures ProcessingResult(lineage, s, tools) ==
            if Source in s.names && Output !in s.names then (if CompleteAt(s, Staging) then Validating else Ready)
            else if !Resumable(lineage, s) then Failed
            else if Source !in s.names then Completed else CleanupPending
  {
    if CompleteAt(s, Output) {
      AcceptsOnFile(s);
    }
  }

  lemma FreshIs(s: State, tools: Tools)
    requires Works(tools, s) && (Source in s.names ==> CompleteAt(s, Source))
    ensures ProcessResult(s, tools) == if Clean(s) then Completed else Failed
  {
  }

  /**
    What one tick with tools that work does for a mission: a resumable one is
    completed or comes one tick closer to it; any other is not completed, and can
    be taken up again only if it failed and another video is at the source now.
   */
  predicate Progresses(lineage: bool, s: State, t: State) {
    && (Resumable(lineage, s) ==>
          || t.status == Completed
          || (Ticks(s) > 1 && Resumable(lineage, t) && Ticks(t) < Ticks(s) && Source in t.names && At(t, Source) == At(s, Source)))
    && (!Resumable(lineage, s) ==>
          t.status != Completed && (Resumable(lineage, t) ==> t.status == Failed && !SeenAlready(t)))
    && (t.status == Completed ==>
          Source !in t.names && CompleteAt(t, Output) && Staging !in t.names && Work !in t.names)
    && (t.status == Completed && Active(s.status) && Output in s.names ==> At(t, Output) == At(s, Output))
  }

  lemma CleanupProgresses(lineage: bool, s: State, t: State, tools: Tools)
    requires Works(tools, s) && Files(s) && Files(t) && s.status == CleanupPending && CleanupTicked(lineage, s, t, tools)
    ensures Progresses(lineage, s, t)
  {
    CleanupRunsIff(lineage, s, tools);
    assert t.status == Completed ==> At(t, Output) == At(s, Output);
  }

  lemma ValidatingProgresses(lineage: bool, s: State, t: State, tools: Tools)
    requires Works(tools, s) && Files(s) && Files(t) && (Source in s.names ==> CompleteAt(s, Source))
    requires s.status == Validating && ValidatingTicked(lineage, s, t, tools)
    ensures Progresses(lineage, s, t)
  {
    ValidatingIs(lineage, s, tools);
    if t.status == CleanupPending && lineage {
      RecordIsOnFile(t);
    }
  }

  lemma ProcessingProgresses(lineage: bool, s: State, t: State, tools: Tools)
    requires Works(tools, s) && Files(s) && Files(t) && (Source in s.names ==> CompleteAt(s, Source))
    requires s.status == Processing && ProcessingTicked(lineage, s, t, tools)
    ensures Progresses(lineage, s, t)
  {
    ProcessingIs(lineage, s, tools);
    if t.status == CleanupPending && lineage {
      RecordIsOnFile(t);
    }
    if t.status == Validating {
      assert At(t, Staging) == At(s, Staging);
    }
  }

  lemma StartProgresses(lineage: bool, s: State, t: State, tools: Tools)
    requires Works(tools, s) && Files(s) && Files(t) && CompleteAt(s, Source)
    requires !Active(s.status) && StartTicked(s, t, tools)
    ensures Progresses(lineage, s, t)
  {
    FreshIs(s, tools);
  }

  method TickOnce(m: Mission, tools: Tools)
    requires m.Valid() && Works(tools, m.View()) && (Source in m.names ==> CompleteAt(m.View(), Source))
    requires Source in m.names || Active(m.status)
    modifies m
    ensures m.Valid() && old(m.trace) <= m.trace
    ensures Progresses(m.lineage, old(m.View()), m.View())
    ensures m.data.Keys <= old(m.data).Keys + {tools.workInode, tools.stagingInode}
  {
    ghost var s := m.View();
    m.Tick(tools);
    assert m.data.Keys <= s.data.Keys + {tools.workInode, tools.stagingInode};
    hide CleanupTicked, ValidatingTicked, ProcessingTicked, StartTicked, Progresses;
    match s.status
    case CleanupPending => CleanupProgresses(m.lineage, s, m.View(), tools);
    case Validating => ValidatingProgresses(m.lineage, s, m.View(), tools);
    case Processing => ProcessingProgresses(m.lineage, s, m.View(), tools);
    case _ => StartProgresses(m.lineage, s, m.View(), tools);
  }

  /** Tools that work, for files that have new numbers. */
  function Able(base: nat, transcode: bool): Tools {
    Tools(true, transcode, true, true, true, true, true, true, base, base + 1)
  }

  /** Left alone, the schedule completes a resumable mission in at most three ticks. */
  method Settle(m: Mission, base: nat, transcode: bool) returns (ticks: nat)
    requires m.Valid() && Resumable(m.lineage, m.View()) && (Source in m.names ==> CompleteAt(m.View(), Source))
    requires Source in m.names || Active(m.status)
    requires forall inode :: inode in m.data ==> inode < base
    modifies m
    ensures m.Valid() && old(m.trace) <= m.trace && 0 < ticks <= old(Ticks(m.View())) <= 3
    ensures m.status == Completed && Source !in m.names && CompleteAt(m.View(), Output)
    ensures Staging !in m.names && Work !in m.names
  {
    hide Resumable;
    assert Ticks(m.View()) <= 3;
    var next := base;
    ticks := 0;
    while true
      invariant m.Valid() && old(m.trace) <= m.trace && Resumable(m.lineage, m.View())
      invariant ticks + Ticks(m.View()) <= old(Ticks(m.View()))
      invariant Source in m.names ==> CompleteAt(m.View(), Source)
      invariant Source in m.names || Active(m.status)
      invariant forall inode :: inode in m.data ==> inode < next
      decreases Ticks(m.View())
    {
      hide Ticks;
      ghost var s := m.View();
      TickOnce(m, Able(next, transcode));
      AlwaysOneTick(s);
      ticks := ticks + 1;
      if m.status == Completed {
        break;
      }
      next := next + 2;
    }
  }

  lemma AlwaysOneTick(s: State)
    ensures 1 <= Ticks(s) <= 3
  {
  }

  /** What a recovery leaves behind is what the cleanup asks for. */
  lemma RecoveredIsResumable(lineage: bool, s: State, t: State, tools: Tools)
    requires Files(s) && s.status in {Processing, Validating} && Ticked(lineage, s, t, tools) && t.status == CleanupPending
    ensures Resumable(lineage, t) && Output in t.names && Source in t.names
  {
    if lineage {
      RecordIsOnFile(t);
    }
    if s.status == Validating && Output in s.names {
      assert At(s, Staging) == At(s, Output);
    }
  }

  /** Two ticks in a row: what the first one recovered the second one completes. */
  method RecoverAndFinish(m: Mission, first: Tools, second: Tools)
    requires m.Valid() && m.status in {Processing, Validating}
    requires first.workInode !in m.data && first.stagingInode !in m.data && first.workInode != first.stagingInode
    requires second.workInode !in m.data && second.stagingInode !in m.data && second.workInode != second.stagingInode
    requires second.outputValid
    modifies m
    ensures m.Valid() && old(m.trace) <= m.trace
    ensures var recovered := ProcessingResult(m.lineage, old(m.View()), first);
            old(m.status) == Processing && recovered == CleanupPending ==>
              && m.status == Completed && Source !in m.names && CompleteAt(m.View(), Output)
              && At(m.View(), Output) == old(At(m.View(), Output))
    ensures var recovered := ValidatingResult(m.lineage, old(m.View()), first);
            old(m.status) == Validating && recovered == CleanupPending ==>
              && m.status == Completed && Source !in m.names && CompleteAt(m.View(), Output)
              && At(m.View(), Output) == old(At(m.View(), Staging))
  {
    ghost var s := m.View();
    m.Tick(first);
    if m.status == CleanupPending {
      RecoveredIsResumable(m.lineage, s, m.View(), first);
      CleanupRunsIff(m.lineage, m.View(), second);
      m.Tick(second);
    }
  }

  /** A tool that refuses or fails never lets a mission through. */
  lemma RefusalsCount(lineage: bool, s: State, tools: Tools)
    ensures !tools.outputValid ==> !CleanupRuns(lineage, s, tools) && MissingSourceResult(lineage, s, tools) == Failed
    ensures !tools.outputValid && Output in s.names ==>
              ProcessingResult(lineage, s, tools) == Failed && ValidatingResult(lineage, s, tools) in {Failed, Ready}
    ensures !tools.stagingValid && Output !in s.names ==>
              ProcessingResult(lineage, s, tools) in {Failed, Ready} && ValidatingResult(lineage, s, tools) in {Failed, Ready}
    ensures !tools.stagingValid || !tools.probed || !tools.copied ==> ProcessResult(s, tools) == Failed
    ensures (if tools.transcode then !tools.encoded || !tools.workValid else !tools.sourceValid) ==>
              ProcessResult(s, tools) == Failed
  {
  }
}
