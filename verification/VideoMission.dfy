/**
  The routines of the compression schedule, on the mission row and its files.
  Every effect is recorded, so that whatever the routines do is a run of
  `VideoCustody`, and a stop may fall between any two effects.
 */
module VideoMission {
  import opened Wrappers
  import opened VideoCustody

  /**
    Answers of the tools in one tick: whether the probe, the encoder, the copy
    and each validation succeed, and the inodes the new files receive.
   */
  datatype Tools = Tools(
    probed: bool, transcode: bool, encoded: bool, copied: bool,
    sourceValid: bool, workValid: bool, stagingValid: bool, outputValid: bool,
    workInode: nat, stagingInode: nat)

  /** Validation never accepts a truncated file. */
  predicate Validates(accepted: bool, s: State, p: Place) {
    accepted && CompleteAt(s, p)
  }

  predicate PrepareAccepted(s: State, tools: Tools) {
    && At(s, Source).Some? && Output !in s.names && Staging !in s.names && Work !in s.names
    && tools.probed && tools.copied
    && (if tools.transcode then tools.encoded && tools.workValid
        else Validates(tools.sourceValid, s, Source))
  }

  /** What a claimed mission comes to when its tick is not interrupted. */
  function ProcessResult(s: State, tools: Tools): Status {
    if PrepareAccepted(s, tools) && tools.stagingValid then Completed else Failed
  }

  /** What any recovery does with a mission whose source is gone. */
  function MissingSourceResult(lineage: bool, s: State, tools: Tools): Status {
    if && Validates(tools.outputValid, s, Output)
       && (Staging in s.names ==> SameFile(s, Staging, Output))
       && (lineage ==> LineageAccepts(s))
    then Completed else Failed
  }

  function ProcessingResult(lineage: bool, s: State, tools: Tools): Status {
    if Source !in s.names then MissingSourceResult(lineage, s, tools)
    else if Output in s.names then
      if && SameFile(s, Staging, Output) && Validates(tools.outputValid, s, Output)
         && (lineage ==> LineageAccepts(s))
      then CleanupPending else Failed
    else if Validates(tools.stagingValid, s, Staging) then Validating
    else Ready
  }

  function ValidatingResult(lineage: bool, s: State, tools: Tools): Status {
    if Source !in s.names then MissingSourceResult(lineage, s, tools)
    else if Staging !in s.names then
      if Output in s.names then Failed else Ready
    else if Output in s.names then
      if && SameFile(s, Staging, Output) && Validates(tools.outputValid, s, Output)
         && (lineage ==> LineageAccepts(s))
      then CleanupPending else Failed
    else if Validates(tools.stagingValid, s, Staging)
         && (lineage ==> LineageAccepts(s.(names := s.names[Output := s.names[Staging]])))
    then CleanupPending else Failed
  }

  /** Exactly when the cleanup removes whatever is at the source. */
  predicate CleanupRuns(lineage: bool, s: State, tools: Tools) {
    && Validates(tools.outputValid, s, Output)
    && (Staging in s.names ==> SameFile(s, Staging, Output))
    && (lineage ==> LineageAccepts(s))
  }

  /** The file at the source is the one the mission's row knows. */
  predicate SeenAlready(s: State) {
    At(s, Source).Some? && At(s, Source).value.clip.video == s.stamp
  }

  /** All four events of the attempt are on record. */
  predicate AllRecorded(s: State) {
    s.attempts in s.ops && s.ops[s.attempts].events >= 4
  }

  /** What one tick comes to, by the status it finds. */
  predicate Ticked(lineage: bool, s: State, t: State, tools: Tools) {
    match s.status
    case CleanupPending => CleanupTicked(lineage, s, t, tools)
    case Validating => ValidatingTicked(lineage, s, t, tools)
    case Processing => ProcessingTicked(lineage, s, t, tools)
    case _ => StartTicked(s, t, tools)
  }

  predicate CleanupTicked(lineage: bool, s: State, t: State, tools: Tools) {
    && t.data == s.data && t.stamp == s.stamp && t.attempts == s.attempts
    && t.status == (if CleanupRuns(lineage, s, tools) then Completed else Failed)
    && t.names == (if t.status == Completed then s.names - {Source, Staging, Work} else s.names)
  }

  predicate ValidatingTicked(lineage: bool, s: State, t: State, tools: Tools) {
    && t.data == s.data && t.stamp == s.stamp && t.attempts == s.attempts
    && t.status == ValidatingResult(lineage, s, tools)
    && At(t, Source) == At(s, Source) && (Output in s.names ==> At(t, Output) == At(s, Output))
    && (t.status == Ready ==> t.names == s.names - {Work})
    && (t.status == CleanupPending ==> At(t, Output) == At(s, Staging) && Staging !in t.names && Work !in t.names)
    && (t.status == CleanupPending && lineage ==> OnRecord(t))
    && (t.status == Completed ==> Source !in t.names && Staging !in t.names && Work !in t.names)
  }

  predicate ProcessingTicked(lineage: bool, s: State, t: State, tools: Tools) {
    && t.data == s.data && t.stamp == s.stamp && t.attempts == s.attempts
    && t.status == ProcessingResult(lineage, s, tools)
    && At(t, Source) == At(s, Source) && At(t, Output) == At(s, Output)
    && (t.status in {Ready, CleanupPending} ==> t.names == s.names - {Staging, Work})
    && (t.status == Validating ==> t.names == s.names - {Work} && t.ops == s.ops)
    && (t.status == CleanupPending && lineage ==> OnRecord(t))
    && (t.status == Completed ==> Source !in t.names && Staging !in t.names && Work !in t.names)
  }

  /** Nothing was under way. */
  predicate StartTicked(s: State, t: State, tools: Tools) {
    && t.status in {s.status, WaitingStable, Completed, Failed}
    && t.data.Keys <= s.data.Keys + {tools.workInode, tools.stagingInode}
    && (t.status == WaitingStable && Source in s.names ==>
          t.names == s.names && t.data == s.data && At(s, Source).Some? && t.stamp == At(s, Source).value.clip.video)
    && (Source in s.names && s.status in {Unregistered, Completed} ==> t.status == WaitingStable)
    && (Source in s.names && s.status in {WaitingStable, Ready, Failed} && !SeenAlready(s) ==> t.status == WaitingStable)
    && (s.status == Failed && SeenAlready(s) ==> t == s)
    && (s.status in {WaitingStable, Ready} && SeenAlready(s) ==>
          && t.status == ProcessResult(s, tools)
          && (t.status == Failed ==> SeenAlready(t))
          && (t.status == Completed ==>
                && Source !in t.names && Staging !in t.names && Work !in t.names
                && At(t, Output) == Some(Snapshot(tools.stagingInode, Clip(s.stamp, true)))))
  }

  lemma UserOpensNothing(s: State, t: State)
    requires UserStep(s, t)
    ensures t.writing == s.writing
  {
  }

  class Mission {
    const lineage: bool
    var names: map<Place, nat>
    var data: map<nat, Clip>
    var status: Status
    var stamp: nat
    var attempts: nat
    var ops: map<nat, Lineage>
    ghost var writing: Option<nat>
    ghost var current: nat
    ghost var custody: set<nat>
    ghost var issued: set<nat>
    ghost var trace: seq<State>

    ghost function View(): State
      reads this
    {
      State(names, data, status, stamp, attempts, ops, writing, current, custody, issued)
    }

    ghost predicate Running()
      reads this
    {
      Run(lineage, trace) && trace[|trace| - 1] == View() && Files(View())
    }

    ghost predicate Valid()
      reads this
    {
      Running() && writing == None
    }

    /** Nothing is known of the mission yet. */
    constructor (lineage: bool)
      ensures Valid() && this.lineage == lineage && Initial(View())
    {
      this.lineage := lineage;
      names, data, status, stamp, attempts, ops := map[], map[], Unregistered, 0, 0, map[];
      writing, current, custody, issued := None, 0, {}, {};
      trace := [State(map[], map[], Unregistered, 0, 0, map[], None, 0, {}, {})];
    }

    /** What users do between two ticks. */
    method Users(t: State)
      requires Valid() && UserStep(View(), t)
      modifies this
      ensures Valid() && old(trace) <= trace && View() == t
    {
      hide ProgramStep, UserStep;
      UserOpensNothing(View(), t);
      names, data, status, stamp, attempts, ops := t.names, t.data, t.status, t.stamp, t.attempts, t.ops;
      writing, current, custody, issued := t.writing, t.current, t.custody, t.issued;
      assert View() == t && UserStep(trace[|trace| - 1], View());
      Record();
    }

    ghost method Record()
      requires Run(lineage, trace)
      requires ProgramStep(lineage, trace[|trace| - 1], View()) || UserStep(trace[|trace| - 1], View())
      modifies this`trace
      ensures Running() && trace == old(trace) + [View()]
    {
      Extend(lineage, trace, View());
      trace := trace + [View()];
      RunKeepsFiles(lineage, trace, |trace| - 1);
    }

    // -------------------------------------------------------- single effects

    method FailMission()
      requires Running() && (Active(status) || status == Ready)
      modifies this
      ensures Valid() && old(trace) <= trace
      ensures View() == old(View()).(status := Failed, writing := None)
    {
      status, writing := Failed, None;
      assert Fail(trace[|trace| - 1], View());
      Record();
    }

    method DiscardFile(p: Place)
      requires Running() && p in {Staging, Work}
      modifies this
      ensures Running() && old(trace) <= trace
      ensures View() == old(View()).(names := old(names) - {p})
    {
      names := names - {p};
      assert Discard(p, trace[|trace| - 1], View());
      Record();
    }

    method CloseFile()
      requires Running()
      modifies this
      ensures Valid() && old(trace) <= trace
      ensures View() == old(View()).(writing := None)
    {
      writing := None;
      assert Stop(trace[|trace| - 1], View());
      Record();
    }

    method CreateFile(p: Place, inode: nat, video: nat)
      requires Valid() && status == Processing && p in {Staging, Work} && p !in names
      requires inode !in data && At(View(), Source).Some?
      modifies this
      ensures Running() && old(trace) <= trace
      ensures View() == old(View()).(names := old(names)[p := inode],
                                     data := old(data)[inode := Clip(video, false)], writing := Some(inode))
    {
      names, data, writing := names[p := inode], data[inode := Clip(video, false)], Some(inode);
      assert OpenFile(p, trace[|trace| - 1], View());
      Record();
    }

    method FillFile(inode: nat, clip: Clip)
      requires Running() && status == Processing && writing == Some(inode) && inode in data
      requires At(View(), Source).Some?
      requires clip.complete ==> clip.video == At(View(), Source).value.clip.video
      modifies this
      ensures Running() && old(trace) <= trace
      ensures View() == old(View()).(data := old(data)[inode := clip])
    {
      data := data[inode := clip];
      assert WriteFile(trace[|trace| - 1], View());
      Record();
    }

    /** Creates the file under `p` and writes `clip` into it, complete or not. */
    method WriteNew(p: Place, inode: nat, clip: Clip)
      requires Valid() && status == Processing && p in {Staging, Work} && p !in names
      requires inode !in data && At(View(), Source).Some?
      requires clip.complete ==> clip.video == At(View(), Source).value.clip.video
      modifies this
      ensures Valid() && old(trace) <= trace
      ensures View() == old(View()).(names := old(names)[p := inode], data := old(data)[inode := clip])
    {
      CreateFile(p, inode, clip.video);
      FillFile(inode, clip);
      CloseFile();
    }

    /** `compression_published`: with lineage off it does nothing. */
    method RecordPublication() returns (ok: bool)
      requires Valid() && Active(status)
      modifies this
      ensures Valid() && old(trace) <= trace
      ensures ok <==> (lineage ==> LineageAccepts(old(View())))
      ensures View() == if ok && lineage then old(View()).(ops := Published(old(View()))) else old(View())
      ensures ok && lineage ==> OnRecord(View())
    {
      if !lineage { return true; }
      if !LineageAccepts(State(names, data, status, stamp, attempts, ops, None, 0, {}, {})) { return false; }
      ghost var before := View();
      var op := ops[attempts];
      var output := Snapshot(names[Output], data[names[Output]]);
      ops := ops[attempts := op.(events := if op.events < 3 then 3 else op.events, output := Some(output))];
      assert RecordPublished(before, View());
      Record();
      return true;
    }

    /** `compression_cleaned`, which commits by itself. */
    method RecordCleaning()
      requires Valid() && Active(status) && Source !in names
      requires lineage ==> OnRecord(View())
      modifies this
      ensures Valid() && old(trace) <= trace
      ensures View() == old(View()).(ops := ops)
      ensures lineage ==> attempts in ops && ops[attempts].events ==
                          (if old(ops)[attempts].events == 3 then 4 else old(ops)[attempts].events)
    {
      if lineage && ops[attempts].events == 3 {
        ghost var before := View();
        ops := ops[attempts := ops[attempts].(events := 4)];
        assert RecordCleaned(before, View());
        Record();
      }
    }

    method CommitCompletion()
      requires Valid() && Active(status) && Source !in names && CompleteAt(View(), Output)
      modifies this
      ensures Valid() && old(trace) <= trace
      ensures View() == old(View()).(status := Completed)
    {
      status := Completed;
      assert CommitCompleted(trace[|trace| - 1], View());
      Record();
    }

    method DiscardAll()
      requires Valid()
      modifies this
      ensures Valid() && old(trace) <= trace
      ensures View() == old(View()).(names := old(names) - {Staging, Work})
    {
      DiscardFile(Staging);
      DiscardFile(Work);
    }

    method CommitCleanup()
      requires Valid() && status in {Processing, Validating} && At(View(), Source).Some?
      requires SameFile(View(), Staging, Output) && CompleteAt(View(), Output)
      requires lineage ==> OnRecord(View())
      modifies this
      ensures Valid() && old(trace) <= trace
      ensures View() == old(View()).(status := CleanupPending,
                                     current := At(old(View()), Source).value.clip.video)
    {
      status, current := CleanupPending, data[names[Source]].video;
      assert CommitPublished(lineage, trace[|trace| - 1], View());
      Record();
    }

    method LinkStaging()
      requires Valid() && status == Validating && CompleteAt(View(), Staging) && Output !in names
      modifies this
      ensures Valid() && old(trace) <= trace
      ensures View() == old(View()).(names := old(names)[Output := old(names)[Staging]])
    {
      names := names[Output := names[Staging]];
      assert LinkOutput(trace[|trace| - 1], View());
      Record();
    }

    method CommitValid()
      requires Valid() && status == Processing && CompleteAt(View(), Staging)
      modifies this
      ensures Valid() && old(trace) <= trace
      ensures View() == old(View()).(status := Validating)
    {
      status := Validating;
      assert CommitValidating(trace[|trace| - 1], View());
      Record();
    }

    method CommitReady()
      requires Valid() && status in {Processing, Validating} && Staging !in names
      modifies this
      ensures Valid() && old(trace) <= trace
      ensures View() == old(View()).(status := Ready)
    {
      status := Ready;
      assert Requeue(trace[|trace| - 1], View());
      Record();
    }

    method Begin()
      requires Valid() && status == Processing && attempts !in ops
      modifies this
      ensures Valid() && old(trace) <= trace
      ensures View() == if lineage && At(old(View()), Source).Some?
                        then old(View()).(ops := old(ops)[attempts := Lineage(At(old(View()), Source).value, 1, None)])
                        else old(View())
    {
      if lineage && Source in names {
        ghost var before := View();
        ops := ops[attempts := Lineage(Snapshot(names[Source], data[names[Source]]), 1, None)];
        assert BeginLineage(before, View());
        Record();
      }
    }

    /** Records and commits the publication of a mission under recovery. */
    method PublishRecovered()
      requires Valid() && status in {Processing, Validating} && At(View(), Source).Some?
      requires SameFile(View(), Staging, Output) && CompleteAt(View(), Output)
      modifies this
      ensures Valid() && old(trace) <= trace
      ensures status == if lineage ==> LineageAccepts(old(View())) then CleanupPending else Failed
      ensures names == if status == Failed then old(names) else old(names) - {Staging, Work}
      ensures data == old(data) && stamp == old(stamp) && attempts == old(attempts)
      ensures status == CleanupPending && lineage ==> OnRecord(View())
    {
      var recorded := RecordPublication();
      if !recorded {
        FailMission();
      } else {
        CommitCleanup();
        DiscardAll();
      }
    }

    /** Discards the attempt's files, then removes the source and commits. */
    method RemoveAndComplete()
      requires Valid() && status == CleanupPending && CompleteAt(View(), Output)
      requires lineage ==> OnRecord(View())
      modifies this
      ensures Valid() && old(trace) <= trace
      ensures View() == old(View()).(names := old(names) - {Source, Staging, Work}, status := Completed, ops := ops)
      ensures lineage ==> attempts in ops && ops[attempts].events ==
                          (if old(ops)[attempts].events == 3 then 4 else old(ops)[attempts].events)
    {
      DiscardAll();
      names := names - {Source};
      assert RemoveSource(lineage, trace[|trace| - 1], View());
      Record();
      RecordCleaning();
      CommitCompletion();
    }

    // ---------------------------------------------------------- the routines

    /** Lines 84-150. */
    method RefreshMission()
      requires Valid()
      modifies this
      ensures Valid() && old(trace) <= trace
      ensures if At(old(View()), Source).Some? then Refresh(old(View()), View()) else View() == old(View())
    {
      if Source in names {
        ghost var before := View();
        var video := data[names[Source]].video;
        if status in {Unregistered, Completed} {
          status, stamp := WaitingStable, video;
        } else if status in {WaitingStable, Ready, Failed} {
          if stamp == video {
            if status == WaitingStable { status := Ready; }
          } else {
            status, stamp := WaitingStable, video;
          }
        }
        assert Refresh(before, View());
        Record();
      }
    }

    /** Lines 153-193. */
    method ClaimMission() returns (claimed: bool)
      requires Valid()
      modifies this
      ensures Valid() && old(trace) <= trace
      ensures claimed <==> old(status) == Ready
      ensures View() == if claimed then old(View()).(status := Processing, attempts := old(attempts) + 1)
                                   else old(View())
      ensures claimed ==> attempts !in ops
    {
      if status != Ready { return false; }
      status, attempts := Processing, attempts + 1;
      assert Claim(trace[|trace| - 1], View());
      Record();
      return true;
    }

    /** `prepare` with its `finally`: on success the staging file is complete. */
    method Prepare(tools: Tools) returns (ok: bool)
      requires Valid() && status == Processing
      requires tools.workInode !in data && tools.stagingInode !in data && tools.workInode != tools.stagingInode
      modifies this
      ensures Valid() && old(trace) <= trace
      ensures ok <==> PrepareAccepted(old(View()), tools)
      ensures View() == old(View()).(names := names, data := data)
      ensures At(View(), Source) == At(old(View()), Source)
      ensures data.Keys <= old(data).Keys + {tools.workInode, tools.stagingInode}
      ensures Output in names <==> Output in old(names)
      ensures ok ==> names == old(names)[Staging := tools.stagingInode]
      ensures names == old(names) || names == old(names)[Staging := tools.stagingInode]
      ensures ok ==> At(View(), Staging) ==
                     Some(Snapshot(tools.stagingInode, Clip(At(old(View()), Source).value.clip.video, true)))
    {
      if Source !in names || Output in names || Staging in names || Work in names || !tools.probed {
        return false;
      }
      var clip := data[names[Source]];
      if !tools.transcode {
        if !tools.sourceValid || !clip.complete { return false; }
        WriteNew(Staging, tools.stagingInode, clip.(complete := tools.copied));
        return tools.copied;
      }
      WriteNew(Work, tools.workInode, Clip(clip.video, tools.encoded));
      if tools.encoded && tools.workValid {
        WriteNew(Staging, tools.stagingInode, Clip(clip.video, tools.copied));
        ok := tools.copied;
      } else {
        ok := false;
      }
      DiscardFile(Work);
    }

    /** Lines 604-650: publish what was prepared, then clean up. */
    method DeliverPrepared(tools: Tools)
      requires Valid() && status == Processing && At(View(), Source).Some?
      requires CompleteAt(View(), Staging) && Output !in names
      requires lineage ==> attempts in ops && ops[attempts] == Lineage(At(View(), Source).value, 1, None)
      modifies this
      ensures Valid() && old(trace) <= trace
      ensures status == if tools.stagingValid then Completed else Failed
      ensures status == Completed ==>
        && Source !in names && Staging !in names && Work !in names
        && At(View(), Output) == At(old(View()), Staging)
        && (lineage ==> attempts in ops && ops[attempts].events == 4)
      ensures status == Failed ==> names == old(names)
      ensures data == old(data) && stamp == old(stamp)
    {
      CommitValid();
      if !tools.stagingValid {
        FailMission();
        return;
      }
      LinkStaging();
      var recorded := RecordPublication();
      CommitCleanup();
      RemoveAndComplete();
    }

    /** Lines 557-652: the rest of the tick after a successful claim. */
    method ProcessClaimed(tools: Tools)
      requires Valid() && status == Processing && attempts !in ops
      requires tools.workInode !in data && tools.stagingInode !in data && tools.workInode != tools.stagingInode
      modifies this
      ensures Valid() && old(trace) <= trace
      ensures status == ProcessResult(old(View()), tools)
      ensures status == Completed ==>
        && Source !in names && Staging !in names && Work !in names
        && At(View(), Output) == Some(Snapshot(tools.stagingInode, Clip(At(old(View()), Source).value.clip.video, true)))
        && (lineage ==> attempts in ops && ops[attempts].events == 4)
      ensures status == Failed ==> At(View(), Source) == At(old(View()), Source)
      ensures status == Failed ==>
        names == if PrepareAccepted(old(View()), tools) then old(names)[Staging := tools.stagingInode] else old(names) - {Staging, Work}
      ensures stamp == old(stamp) && data.Keys <= old(data).Keys + {tools.workInode, tools.stagingInode}
    {
      hide Run, Files;
      Begin();
      var prepared := Prepare(tools);
      if prepared {
        DeliverPrepared(tools);
      } else {
        DiscardAll();
        FailMission();
      }
    }

    /** A mission under recovery whose source is gone. */
    method RecoverMissingSource(tools: Tools)
      requires Valid() && status in {Processing, Validating} && Source !in names
      modifies this
      ensures Valid() && old(trace) <= trace
      ensures status == MissingSourceResult(lineage, old(View()), tools)
      ensures status == Completed && lineage ==> AllRecorded(View())
      ensures Source !in names && At(View(), Output) == At(old(View()), Output)
      ensures status == Completed ==> Staging !in names && Work !in names
      ensures data == old(data) && stamp == old(stamp) && attempts == old(attempts)
    {
      if Output !in names || (Staging in names && names[Staging] != names[Output])
         || !tools.outputValid || !data[names[Output]].complete {
        FailMission();
        return;
      }
      var recorded := RecordPublication();
      if !recorded {
        FailMission();
        return;
      }
      RecordCleaning();
      DiscardAll();
      CommitCompletion();
    }

    /** Lines 408-525. */
    method RecoverProcessing(tools: Tools)
      requires Valid() && status == Processing
      modifies this
      ensures Valid() && old(trace) <= trace
      ensures status == ProcessingResult(lineage, old(View()), tools)
      ensures status == Completed && lineage ==> AllRecorded(View())
      ensures At(View(), Source) == At(old(View()), Source) && At(View(), Output) == At(old(View()), Output)
      ensures status in {Ready, CleanupPending} ==> names == old(names) - {Staging, Work}
      ensures status == Validating ==> names == old(names) - {Work} && ops == old(ops)
      ensures status == Completed ==> Source !in names && Staging !in names && Work !in names
      ensures status == CleanupPending && lineage ==> OnRecord(View())
      ensures data == old(data) && stamp == old(stamp) && attempts == old(attempts)
    {
      hide Run;
      if Source !in names {
        RecoverMissingSource(tools);
        return;
      }
      if Output in names {
        if Staging !in names || names[Staging] != names[Output]
           || !tools.outputValid || !data[names[Output]].complete {
          FailMission();
          return;
        }
        PublishRecovered();
        return;
      }
      if Staging in names && tools.stagingValid && data[names[Staging]].complete {
        DiscardFile(Work);
        CommitValid();
        return;
      }
      DiscardAll();
      CommitReady();
    }

    /** Lines 317-405. */
    method RecoverValidating(tools: Tools)
      requires Valid() && status == Validating
      modifies this
      ensures Valid() && old(trace) <= trace
      ensures status == ValidatingResult(lineage, old(View()), tools)
      ensures status == Completed && lineage ==> AllRecorded(View())
      ensures At(View(), Source) == At(old(View()), Source)
      ensures Output in old(names) ==> At(View(), Output) == At(old(View()), Output)
      ensures status == Ready ==> names == old(names) - {Work}
      ensures status == Completed ==> Source !in names && Staging !in names && Work !in names
      ensures status == CleanupPending ==>
        At(View(), Output) == At(old(View()), Staging) && Staging !in names && Work !in names
      ensures status == CleanupPending && lineage ==> OnRecord(View())
      ensures data == old(data) && stamp == old(stamp) && attempts == old(attempts)
    {
      hide Run;
      if Source !in names {
        RecoverMissingSource(tools);
        return;
      }
      if Staging !in names {
        if Output in names {
          FailMission();
          return;
        }
        DiscardFile(Work);
        CommitReady();
        return;
      }
      if Output in names {
        if names[Staging] != names[Output] || !tools.outputValid || !data[names[Output]].complete {
          FailMission();
          return;
        }
      } else {
        if !tools.stagingValid || !data[names[Staging]].complete {
          FailMission();
          return;
        }
        LinkStaging();
      }
      PublishRecovered();
    }

    /** Lines 270-314. */
    method FinishCleanup(tools: Tools)
      requires Valid() && status == CleanupPending
      modifies this
      ensures Valid() && old(trace) <= trace
      ensures status == if CleanupRuns(lineage, old(View()), tools) then Completed else Failed
      ensures status == Completed && lineage ==> AllRecorded(View())
      ensures status == Completed ==> names == old(names) - {Source, Staging, Work}
      ensures status == Failed ==> names == old(names)
      ensures data == old(data) && stamp == old(stamp) && attempts == old(attempts)
    {
      if Output !in names || (Staging in names && names[Staging] != names[Output])
         || !tools.outputValid || !data[names[Output]].complete {
        FailMission();
        return;
      }
      var recorded := RecordPublication();
      if !recorded {
        FailMission();
        return;
      }
      RemoveAndComplete();
    }

    /** Nothing was interrupted: look at the file, claim it if it is ready, and process it. */
    method StartAnew(tools: Tools)
      requires Valid() && !Active(status)
      requires tools.workInode !in data && tools.stagingInode !in data && tools.workInode != tools.stagingInode
      modifies this
      ensures Valid() && old(trace) <= trace
      ensures StartTicked(old(View()), View(), tools)
      ensures status == Completed && lineage && names != old(names) ==> AllRecorded(View())
    {
      hide Run;
      RefreshMission();
      var claimed := ClaimMission();
      if claimed {
        ProcessClaimed(tools);
      }
    }

    /** `process_one_mission`: recover what was interrupted, else start anew. */
    method Tick(tools: Tools)
      requires Valid()
      requires tools.workInode !in data && tools.stagingInode !in data && tools.workInode != tools.stagingInode
      modifies this
      ensures Valid() && old(trace) <= trace
      ensures Ticked(lineage, old(View()), View(), tools)
      ensures status == Completed && lineage && (Active(old(status)) || names != old(names)) ==> AllRecorded(View())
    {
      hide Run, Files, CleanupRuns, ValidatingResult, ProcessingResult, OnRecord, StartTicked;
      if status == CleanupPending {
        FinishCleanup(tools);
      } else if status == Validating {
        RecoverValidating(tools);
      } else if status == Processing {
        RecoverProcessing(tools);
      } else {
        StartAnew(tools);
      }
    }
  }
}
