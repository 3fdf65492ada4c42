/**
  Video compression: one mission row and the files it owns.

  The steps below are the durable effects of `process_one_mission` and of its
  three recovery routines, and what users may do between two of them. The
  custody theorem says when no such run loses a video; where the routines can
  lose one, the exact condition is proved and a reachable run is given.
 */
module VideoCustody {
  import opened Wrappers

  datatype Place = Source | Output | Staging | Work

  datatype Status =
    | Unregistered | WaitingStable | Ready | Processing | Validating
    | CleanupPending | Completed | Failed

  /** Which video the bytes come from, and whether all of it is there. */
  datatype Clip = Clip(video: nat, complete: bool)

  datatype Snapshot = Snapshot(inode: nat, clip: Clip)

  /** The lineage events of one attempt. */
  datatype Lineage = Lineage(source: Snapshot, events: nat, output: Option<Snapshot>)

  /**
    `writing` is the file the running routine holds open. `custody` are the
    videos users have handed over and not taken back, `issued` all video
    numbers ever used, `current` the video the last publication delivered.
   */
  datatype State = State(
    names: map<Place, nat>, data: map<nat, Clip>,
    status: Status, stamp: nat, attempts: nat, ops: map<nat, Lineage>,
    writing: Option<nat>,
    current: nat, custody: set<nat>, issued: set<nat>)

  function At(s: State, p: Place): Option<Snapshot> {
    if p in s.names && s.names[p] in s.data then Some(Snapshot(s.names[p], s.data[s.names[p]])) else None
  }

  predicate Holds(s: State, p: Place, video: nat) {
    At(s, p).Some? && At(s, p).value.clip.video == video
  }

  predicate CompleteAt(s: State, p: Place) {
    At(s, p).Some? && At(s, p).value.clip.complete
  }

  predicate SameFile(s: State, p: Place, q: Place) {
    p in s.names && q in s.names && s.names[p] == s.names[q]
  }

  predicate Active(status: Status) {
    status in {Processing, Validating, CleanupPending}
  }

  // ------------------------------------------------- steps of the program

  /** `refresh_missions` finds the file under the mission's name. */
  predicate Refresh(s: State, t: State) {
    && At(s, Source).Some?
    && var video := At(s, Source).value.clip.video;
    if s.status in {Unregistered, Completed} || (s.status in {WaitingStable, Ready, Failed} && s.stamp != video)
    then t == s.(status := WaitingStable, stamp := video)
    else t == s.(status := if s.status == WaitingStable then Ready else s.status)
  }

  predicate Claim(s: State, t: State) {
    s.status == Ready && t == s.(status := Processing, attempts := s.attempts + 1)
  }

  predicate BeginLineage(s: State, t: State) {
    && s.status == Processing && At(s, Source).Some? && s.attempts !in s.ops
    && t == s.(ops := s.ops[s.attempts := Lineage(At(s, Source).value, 1, None)])
  }

  /** Staging and work files are created exclusively, as new files. */
  predicate OpenFile(p: Place, s: State, t: State) {
    && p in {Staging, Work}
    && s.status == Processing && At(s, Source).Some? && s.writing == None
    && p !in s.names
    && t.writing.Some? && t.writing.value !in s.data && t.writing.value in t.data
    && !t.data[t.writing.value].complete
    && t == s.(names := s.names[p := t.writing.value],
               data := s.data[t.writing.value := t.data[t.writing.value]], writing := t.writing)
  }

  /** What is written is complete only if all of the source went into it. */
  predicate WriteFile(s: State, t: State) {
    && s.status == Processing && s.writing.Some? && s.writing.value in s.data && At(s, Source).Some?
    && s.writing.value in t.data
    && (t.data[s.writing.value].complete ==> t.data[s.writing.value].video == At(s, Source).value.clip.video)
    && t == s.(data := s.data[s.writing.value := t.data[s.writing.value]])
  }

  predicate Discard(p: Place, s: State, t: State) {
    p in {Staging, Work} && t == s.(names := s.names - {p})
  }

  predicate CommitValidating(s: State, t: State) {
    && s.status == Processing && CompleteAt(s, Staging)
    && t == s.(status := Validating, writing := None)
  }

  predicate LinkOutput(s: State, t: State) {
    && s.status == Validating && CompleteAt(s, Staging) && Output !in s.names
    && t == s.(names := s.names[Output := s.names[Staging]])
  }

  /** `record_published` accepts the files; line 118 of the lineage service on. */
  predicate LineageAccepts(s: State) {
    && s.attempts in s.ops && At(s, Output).Some?
    && var op := s.ops[s.attempts];
    && (if Source in s.names then At(s, Source) == Some(op.source) else op.events >= 3)
    && (op.events > 1 ==> op.output == At(s, Output))
  }

  function Published(s: State): map<nat, Lineage>
    requires s.attempts in s.ops
  {
    var op := s.ops[s.attempts];
    s.ops[s.attempts := op.(events := if op.events < 3 then 3 else op.events, output := At(s, Output))]
  }

  predicate RecordPublished(s: State, t: State) {
    && Active(s.status) && LineageAccepts(s)
    && t == s.(ops := Published(s))
  }

  /** With lineage on, publication is on record for exactly these two files. */
  predicate OnRecord(s: State) {
    && s.attempts in s.ops
    && var op := s.ops[s.attempts];
    && op.events >= 3 && op.output == At(s, Output)
    && (Source in s.names ==> At(s, Source) == Some(op.source))
  }

  predicate CommitPublished(lineage: bool, s: State, t: State) {
    && s.status in {Processing, Validating}
    && SameFile(s, Staging, Output) && CompleteAt(s, Output) && At(s, Source).Some?
    && (lineage ==> OnRecord(s))
    && t == s.(status := CleanupPending, writing := None, current := At(s, Source).value.clip.video)
  }

  /** The attempt's staging file is discarded before the source goes. */
  predicate RemovalAllowed(lineage: bool, s: State) {
    && s.status == CleanupPending && CompleteAt(s, Output) && Staging !in s.names
    && (lineage ==> OnRecord(s))
  }

  /** The checks of one tick and the removal that relies on them are one step. */
  predicate RemoveSource(lineage: bool, s: State, t: State) {
    RemovalAllowed(lineage, s) && t == s.(names := s.names - {Source})
  }

  predicate RecordCleaned(s: State, t: State) {
    && Active(s.status) && s.attempts in s.ops && s.ops[s.attempts].events == 3
    && Source !in s.names && s.ops[s.attempts].output == At(s, Output)
    && t == s.(ops := s.ops[s.attempts := s.ops[s.attempts].(events := 4)])
  }

  predicate CommitCompleted(s: State, t: State) {
    && Active(s.status) && Source !in s.names && CompleteAt(s, Output)
    && t == s.(status := Completed, writing := None)
  }

  predicate Requeue(s: State, t: State) {
    && s.status in {Processing, Validating} && Staging !in s.names
    && t == s.(status := Ready, writing := None)
  }

  predicate Fail(s: State, t: State) {
    (Active(s.status) || s.status == Ready) && t == s.(status := Failed, writing := None)
  }

  predicate Stop(s: State, t: State) {
    t == s.(writing := None)
  }

  predicate PrepareStep(s: State, t: State) {
    || Refresh(s, t)
    || Claim(s, t)
    || BeginLineage(s, t)
    || OpenFile(Staging, s, t)
    || OpenFile(Work, s, t)
    || WriteFile(s, t)
    || Discard(Staging, s, t)
    || Discard(Work, s, t)
    || CommitValidating(s, t)
  }

  predicate DeliverStep(lineage: bool, s: State, t: State) {
    || LinkOutput(s, t)
    || RecordPublished(s, t)
    || CommitPublished(lineage, s, t)
    || RemoveSource(lineage, s, t)
    || RecordCleaned(s, t)
    || CommitCompleted(s, t)
    || Requeue(s, t)
    || Fail(s, t)
    || Stop(s, t)
  }

  predicate ProgramStep(lineage: bool, s: State, t: State) {
    PrepareStep(s, t) || DeliverStep(lineage, s, t)
  }

  // -------------------------------------------------------- steps of users

  /** A new video appears where there was none; it is now in custody. */
  predicate PlaceSource(s: State, t: State) {
    && Source !in s.names && Source in t.names && t.names[Source] !in s.data
    && t.names[Source] in t.data && t.data[t.names[Source]].complete
    && var video := t.data[t.names[Source]].video;
    && video !in s.issued
    && t == s.(names := s.names[Source := t.names[Source]],
               data := s.data[t.names[Source] := Clip(video, true)],
               custody := s.custody + {video}, issued := s.issued + {video})
  }

  /** Users take a video back only while no attempt is under way. */
  predicate TakeSource(s: State, t: State) {
    && !Active(s.status) && At(s, Source).Some?
    && t == s.(names := s.names - {Source}, custody := s.custody - {At(s, Source).value.clip.video})
  }

  predicate TakeOutput(s: State, t: State) {
    && At(s, Output).Some?
    && t == s.(names := s.names - {Output}, custody := s.custody - {At(s, Output).value.clip.video})
  }

  /** Some other video is put at the free output name. */
  predicate PlaceOutput(s: State, t: State) {
    && Output !in s.names && Output in t.names && t.names[Output] !in s.data && t.names[Output] in t.data
    && var clip := t.data[t.names[Output]];
    && clip.video !in s.issued
    && t == s.(names := s.names[Output := t.names[Output]], data := s.data[t.names[Output] := clip],
               issued := s.issued + {clip.video})
  }

  predicate UserStep(s: State, t: State) {
    PlaceSource(s, t) || TakeSource(s, t) || TakeOutput(s, t) || PlaceOutput(s, t)
  }

  predicate Initial(s: State) {
    && s.names == map[] && s.data == map[] && s.status == Unregistered && s.attempts == 0
    && s.ops == map[] && s.writing == None && s.custody == {} && s.issued == {}
  }

  predicate Stepped(lineage: bool, run: seq<State>, i: nat)
    requires i < |run| - 1
  {
    ProgramStep(lineage, run[i], run[i + 1]) || UserStep(run[i], run[i + 1])
  }

  ghost predicate Run(lineage: bool, run: seq<State>) {
    && |run| > 0 && Initial(run[0])
    && forall i :: 0 <= i < |run| - 1 ==> Stepped(lineage, run, i)
  }

  lemma Extend(lineage: bool, run: seq<State>, t: State)
    requires Run(lineage, run)
    requires ProgramStep(lineage, run[|run| - 1], t) || UserStep(run[|run| - 1], t)
    ensures Run(lineage, run + [t])
  {
    var longer := run + [t];
    forall i | 0 <= i < |longer| - 1 ensures Stepped(lineage, longer, i) {
      if i < |run| - 1 {
        assert Stepped(lineage, run, i);
      }
    }
  }

  // --------------------------------------------------------------- custody

  /** The video is at the source, or all of it is in the output. */
  predicate Kept(s: State, video: nat) {
    Holds(s, Source, video) || (CompleteAt(s, Output) && Holds(s, Output, video))
  }

  ghost predicate Custody(s: State) {
    forall video :: video in s.custody ==> Kept(s, video)
  }

  /** A complete staging file that does not come from the file at the source. */
  predicate Stale(s: State) {
    CompleteAt(s, Staging) && !Holds(s, Source, At(s, Staging).value.clip.video)
  }

  predicate FreshClaim(s: State, t: State) {
    Claim(s, t) ==> !Stale(s)
  }

  predicate PatientUser(s: State, t: State) {
    PlaceSource(s, t) ==> s.status != CleanupPending
  }

  predicate Files(s: State) {
    && s.names.Values <= s.data.Keys
    && (Source in s.names ==> s.data[s.names[Source]].video in s.issued)
    && (Source in s.names && Output in s.names ==> s.names[Source] != s.names[Output])
    && (Source in s.names && Staging in s.names ==> s.names[Source] != s.names[Staging])
    && (s.writing.Some? ==>
          && s.status == Processing && s.writing.value in s.data
          && (Source in s.names ==> s.names[Source] != s.writing.value)
          && (Output in s.names ==> s.names[Output] != s.writing.value))
    && (forall a :: a in s.ops ==> a <= s.attempts && s.ops[a].source.inode in s.data)
  }

  predicate CleanupSound(lineage: bool, s: State) {
    s.status == CleanupPending ==>
      && s.current in s.issued
      && (s.current in s.custody ==> CompleteAt(s, Output) && Holds(s, Output, s.current))
      && (if lineage then s.attempts in s.ops && s.ops[s.attempts].source.clip.video == s.current
          else Source in s.names ==> Holds(s, Source, s.current))
  }

  predicate Inv(lineage: bool, s: State) {
    && Files(s)
    && (s.status in {Processing, Validating} ==> !Stale(s))
    && CleanupSound(lineage, s)
    && s.custody <= s.issued
    && (forall video :: video in s.custody ==> Kept(s, video))
  }

  lemma ClaimKeepsInv(lineage: bool, s: State, t: State)
    requires Inv(lineage, s) && FreshClaim(s, t)
    requires Refresh(s, t) || Claim(s, t) || BeginLineage(s, t)
    ensures Inv(lineage, t)
  {
    assert t.names == s.names && t.data == s.data;
    assert forall video :: video in t.custody ==> Kept(s, video) && Kept(t, video);
  }

  lemma WriteKeepsInv(lineage: bool, s: State, t: State)
    requires Inv(lineage, s)
    requires OpenFile(Staging, s, t) || OpenFile(Work, s, t) || WriteFile(s, t)
    ensures Inv(lineage, t)
  {
    assert At(t, Source) == At(s, Source) && At(t, Output) == At(s, Output);
    assert forall video :: video in t.custody ==> Kept(s, video) && Kept(t, video);
  }

  lemma DiscardKeepsInv(lineage: bool, s: State, t: State)
    requires Inv(lineage, s)
    requires Discard(Staging, s, t) || Discard(Work, s, t) || CommitValidating(s, t)
    ensures Inv(lineage, t)
  {
    assert At(t, Source) == At(s, Source) && At(t, Output) == At(s, Output);
    assert forall video :: video in t.custody ==> Kept(s, video) && Kept(t, video);
  }

  lemma PublishKeepsInv(lineage: bool, s: State, t: State)
    requires Inv(lineage, s)
    requires LinkOutput(s, t) || RecordPublished(s, t) || CommitPublished(lineage, s, t)
    ensures Inv(lineage, t)
  {
    assert At(t, Source) == At(s, Source);
    assert At(s, Output).Some? ==> At(t, Output) == At(s, Output);
    assert forall video :: video in t.custody ==> Kept(s, video) && Kept(t, video);
  }

  lemma RemoveKeepsInv(lineage: bool, s: State, t: State)
    requires Inv(lineage, s) && RemoveSource(lineage, s, t)
    ensures Inv(lineage, t)
  {
    assert At(t, Output) == At(s, Output);
    forall video | video in t.custody ensures Kept(t, video) {
      assert Kept(s, video);
    }
  }

  lemma FinishKeepsInv(lineage: bool, s: State, t: State)
    requires Inv(lineage, s)
    requires RecordCleaned(s, t) || CommitCompleted(s, t) || Requeue(s, t) || Fail(s, t) || Stop(s, t)
    ensures Inv(lineage, t)
  {
    assert t.names == s.names && t.data == s.data;
    assert forall video :: video in t.custody ==> Kept(s, video) && Kept(t, video);
  }

  lemma ProgramKeepsInv(lineage: bool, s: State, t: State)
    requires Inv(lineage, s) && ProgramStep(lineage, s, t) && FreshClaim(s, t)
    ensures Inv(lineage, t)
  {
    if Refresh(s, t) || Claim(s, t) || BeginLineage(s, t) {
      ClaimKeepsInv(lineage, s, t);
    } else if OpenFile(Staging, s, t) || OpenFile(Work, s, t) || WriteFile(s, t) {
      WriteKeepsInv(lineage, s, t);
    } else if PrepareStep(s, t) {
      DiscardKeepsInv(lineage, s, t);
    } else if LinkOutput(s, t) || RecordPublished(s, t) || CommitPublished(lineage, s, t) {
      PublishKeepsInv(lineage, s, t);
    } else if RemoveSource(lineage, s, t) {
      RemoveKeepsInv(lineage, s, t);
    } else {
      FinishKeepsInv(lineage, s, t);
    }
  }

  lemma UserKeepsInv(lineage: bool, s: State, t: State)
    requires Inv(lineage, s) && UserStep(s, t)
    requires lineage || PatientUser(s, t)
    ensures Inv(lineage, t)
  {
    if TakeSource(s, t) || TakeOutput(s, t) {
      TakeKeepsInv(lineage, s, t);
    } else {
      PlaceKeepsInv(lineage, s, t);
    }
  }

  lemma TakeKeepsInv(lineage: bool, s: State, t: State)
    requires Inv(lineage, s) && (TakeSource(s, t) || TakeOutput(s, t))
    ensures Inv(lineage, t)
  {
    assert forall video :: video in t.custody ==> Kept(s, video) && Kept(t, video);
  }

  lemma PlaceKeepsInv(lineage: bool, s: State, t: State)
    requires Inv(lineage, s) && (PlaceSource(s, t) || PlaceOutput(s, t))
    requires lineage || PatientUser(s, t)
    ensures Inv(lineage, t)
  {
    assert At(s, Source).Some? ==> At(t, Source) == At(s, Source);
    assert At(s, Output).Some? ==> At(t, Output) == At(s, Output);
    assert At(s, Staging) == At(t, Staging);
    forall video | video in t.custody ensures Kept(t, video) {
      if video in s.custody {
        assert Kept(s, video);
      }
    }
  }

  ghost predicate Considerate(lineage: bool, run: seq<State>) {
    forall i :: 0 <= i < |run| - 1 ==>
      FreshClaim(run[i], run[i + 1]) && (lineage || PatientUser(run[i], run[i + 1]))
  }

  lemma {:induction false} RunKeepsInv(lineage: bool, run: seq<State>, n: nat)
    requires Run(lineage, run) && Considerate(lineage, run) && n < |run|
    ensures Inv(lineage, run[n])
  {
    if n > 0 {
      RunKeepsInv(lineage, run, n - 1);
      var s, t := run[n - 1], run[n - 1 + 1];
      assert Stepped(lineage, run, n - 1) && FreshClaim(s, t) && (lineage || PatientUser(s, t));
      if ProgramStep(lineage, s, t) {
        ProgramKeepsInv(lineage, s, t);
      } else {
        UserKeepsInv(lineage, s, t);
      }
    }
  }

  /**
    No video in custody is lost by any mix of ticks, stops and recoveries,
    provided no claim finds a stale staging file and, with lineage off, no
    video is put back while a cleanup is pending.
   */
  lemma VideoNeverLost(lineage: bool, run: seq<State>, n: nat)
    requires Run(lineage, run) && Considerate(lineage, run) && n < |run|
    ensures Custody(run[n])
  {
    RunKeepsInv(lineage, run, n);
  }

  /** Complete files carry video numbers that have been issued. */
  ghost predicate Numbered(s: State) {
    forall i :: i in s.data && s.data[i].complete ==> s.data[i].video in s.issued
  }

  /** The output's number was given out; without a source, cleanup has discarded its staging file. */
  predicate Settled(s: State) {
    && (Output in s.names && s.names[Output] in s.data ==> s.data[s.names[Output]].video in s.issued)
    && (s.status == CleanupPending && Source !in s.names ==> Staging !in s.names)
  }

  lemma SettledPersists(lineage: bool, s: State, t: State)
    requires Files(s) && Numbered(s) && Settled(s) && (ProgramStep(lineage, s, t) || UserStep(s, t))
    ensures Settled(t)
  {
    if PrepareStep(s, t) {
      PrepareKeepsSettled(s, t);
    } else if DeliverStep(lineage, s, t) {
      DeliverKeepsSettled(lineage, s, t);
    } else {
      UserKeepsSettled(s, t);
    }
  }

  lemma PrepareKeepsSettled(s: State, t: State)
    requires Files(s) && Settled(s) && PrepareStep(s, t)
    ensures Settled(t)
  {
    assert At(t, Output) == At(s, Output) && t.issued == s.issued;
    assert t.status == CleanupPending ==> s.status == CleanupPending && t.names.Keys <= s.names.Keys;
    assert Source in s.names ==> Source in t.names;
  }

  lemma DeliverKeepsSettled(lineage: bool, s: State, t: State)
    requires Files(s) && Numbered(s) && Settled(s) && DeliverStep(lineage, s, t)
    ensures Settled(t)
  {
    if LinkOutput(s, t) {
      assert At(t, Output) == At(s, Staging);
    }
  }

  lemma UserKeepsSettled(s: State, t: State)
    requires Files(s) && Settled(s) && UserStep(s, t)
    ensures Settled(t)
  {
  }

  lemma NumberedPersists(lineage: bool, s: State, t: State)
    requires Files(s) && Numbered(s) && (ProgramStep(lineage, s, t) || UserStep(s, t))
    ensures Numbered(t)
  {
    if OpenFile(Staging, s, t) || OpenFile(Work, s, t) || WriteFile(s, t) {
      WritingNumbers(s, t);
    } else if ProgramStep(lineage, s, t) {
      OthersWriteNothing(lineage, s, t);
    }
  }

  lemma OthersWriteNothing(lineage: bool, s: State, t: State)
    requires ProgramStep(lineage, s, t) && !OpenFile(Staging, s, t) && !OpenFile(Work, s, t) && !WriteFile(s, t)
    ensures t.data == s.data && t.issued == s.issued
  {
  }

  lemma WritingNumbers(s: State, t: State)
    requires Files(s) && Numbered(s) && (OpenFile(Staging, s, t) || OpenFile(Work, s, t) || WriteFile(s, t))
    ensures Numbered(t)
  {
    if WriteFile(s, t) {
      assert At(s, Source).value.clip.video in s.issued;
    }
  }

  lemma PrepareKeepsFiles(s: State, t: State)
    requires Files(s) && PrepareStep(s, t)
    ensures Files(t)
  {
    if OpenFile(Staging, s, t) || OpenFile(Work, s, t) || WriteFile(s, t) {
      WritingKeepsFiles(s, t);
    } else if BeginLineage(s, t) {
    } else {
      assert t.names.Keys <= s.names.Keys && t.data == s.data && t.ops == s.ops;
    }
  }

  lemma WritingKeepsFiles(s: State, t: State)
    requires Files(s) && (OpenFile(Staging, s, t) || OpenFile(Work, s, t) || WriteFile(s, t))
    ensures Files(t)
  {
  }

  lemma DeliverKeepsFiles(lineage: bool, s: State, t: State)
    requires Files(s) && DeliverStep(lineage, s, t)
    ensures Files(t)
  {
    if LinkOutput(s, t) {
    } else if RecordPublished(s, t) || RecordCleaned(s, t) {
    } else {
      assert t.names.Keys <= s.names.Keys && t.data == s.data && t.ops == s.ops;
    }
  }

  lemma UserKeepsFiles(s: State, t: State)
    requires Files(s) && UserStep(s, t)
    ensures Files(t)
  {
  }

  lemma {:induction false} RunKeepsFiles(lineage: bool, run: seq<State>, n: nat)
    requires Run(lineage, run) && n < |run|
    ensures Files(run[n]) && Numbered(run[n]) && Settled(run[n])
  {
    if n > 0 {
      RunKeepsFiles(lineage, run, n - 1);
      var s, t := run[n - 1], run[n];
      assert Stepped(lineage, run, n - 1);
      NumberedPersists(lineage, s, t);
      SettledPersists(lineage, s, t);
      if PrepareStep(s, t) {
        PrepareKeepsFiles(s, t);
      } else if DeliverStep(lineage, s, t) {
        DeliverKeepsFiles(lineage, s, t);
      } else {
        UserKeepsFiles(s, t);
      }
    }
  }
}
