/**
  When video compression can lose a video: exactly which claims are
  dangerous, with and without users in between, exactly when a returned video
  is at risk, and a run from the start for each kind of loss.
 */
module VideoLoss {
  import opened Wrappers
  import opened VideoCustody

  // ------------------------------------- exactly when a claim can lose a video

  ghost predicate ProgramRun(lineage: bool, run: seq<State>) {
    && |run| > 0
    && forall i :: 0 <= i < |run| - 1 ==> ProgramStep(lineage, run[i], run[i + 1])
  }

  /** A mission just claimed; all is well except perhaps its staging file. */
  predicate JustClaimed(lineage: bool, s: State) {
    && s.status == Processing && s.writing == None && s.attempts !in s.ops
    && Files(s) && s.custody <= s.issued && At(s, Source).Some?
    && (forall video :: video in s.custody ==> Kept(s, video))
  }

  predicate Endangered(s: State) {
    Stale(s) && (Output !in s.names || SameFile(s, Staging, Output))
  }

  /** Sound with the source still there, and no staging file from elsewhere. */
  predicate Undisturbed(lineage: bool, s: State) {
    && Inv(lineage, s)
    && (Source in s.names ==> !Stale(s))
    && (Source !in s.names ==> s.status in {CleanupPending, Completed, Failed})
  }

  /** A stale staging file that the occupied output name keeps from harm. */
  predicate Blocked(s: State) {
    && Files(s) && s.custody <= s.issued && s.status != CleanupPending
    && Source in s.names && Output in s.names && Staging in s.names && !SameFile(s, Staging, Output)
    && (forall video :: video in s.custody ==> Kept(s, video))
  }

  lemma UndisturbedPersists(lineage: bool, s: State, t: State)
    requires Undisturbed(lineage, s) && ProgramStep(lineage, s, t)
    ensures Undisturbed(lineage, t)
  {
    assert FreshClaim(s, t);
    ProgramKeepsInv(lineage, s, t);
    if PrepareStep(s, t) {
      SourceStaysFresh(s, t);
    } else {
      DeliveryStaysFresh(lineage, s, t);
    }
  }

  predicate Undiluted(s: State) {
    && Files(s)
    && (Source in s.names ==> !Stale(s))
    && (Source !in s.names ==> s.status in {CleanupPending, Completed, Failed})
  }

  lemma SourceStaysFresh(s: State, t: State)
    requires Undiluted(s) && PrepareStep(s, t)
    ensures Source in t.names ==> !Stale(t)
    ensures Source !in t.names ==> t.status in {CleanupPending, Completed, Failed}
  {
    assert At(t, Source) == At(s, Source);
  }

  lemma DeliveryStaysFresh(lineage: bool, s: State, t: State)
    requires Undiluted(s) && DeliverStep(lineage, s, t)
    ensures Source in t.names ==> !Stale(t)
    ensures Source !in t.names ==> t.status in {CleanupPending, Completed, Failed}
  {
    assert At(t, Staging) == At(s, Staging);
  }

  lemma BlockedPersists(lineage: bool, s: State, t: State)
    requires Blocked(s) && ProgramStep(lineage, s, t)
    ensures Blocked(t) || Undisturbed(lineage, t)
  {
    if PrepareStep(s, t) {
      BlockedPrepares(lineage, s, t);
    } else {
      BlockedDelivers(lineage, s, t);
    }
  }

  lemma BlockedPrepares(lineage: bool, s: State, t: State)
    requires Blocked(s) && PrepareStep(s, t)
    ensures Blocked(t) || Undisturbed(lineage, t)
  {
    if Discard(Staging, s, t) {
      DiscardUnblocks(lineage, s, t);
    } else {
      PreparingStaysBlocked(s, t);
    }
  }

  lemma DiscardUnblocks(lineage: bool, s: State, t: State)
    requires Blocked(s) && Discard(Staging, s, t)
    ensures Undisturbed(lineage, t)
  {
    assert At(t, Source) == At(s, Source) && At(t, Output) == At(s, Output);
    assert forall video :: video in t.custody ==> Kept(s, video) && Kept(t, video);
  }

  lemma PreparingStaysBlocked(s: State, t: State)
    requires Blocked(s) && PrepareStep(s, t) && !Discard(Staging, s, t)
    ensures Blocked(t)
  {
    PrepareKeepsFiles(s, t);
    assert At(t, Source) == At(s, Source) && At(t, Output) == At(s, Output);
    assert forall video :: video in t.custody ==> Kept(s, video) && Kept(t, video);
  }

  lemma BlockedDelivers(lineage: bool, s: State, t: State)
    requires Blocked(s) && DeliverStep(lineage, s, t)
    ensures Blocked(t)
  {
    assert t.names == s.names && t.data == s.data;
    assert forall video :: video in t.custody ==> Kept(s, video) && Kept(t, video);
  }

  lemma {:induction false} HarmlessClaim(lineage: bool, run: seq<State>, n: nat)
    requires ProgramRun(lineage, run) && n < |run|
    requires JustClaimed(lineage, run[0]) && !Endangered(run[0])
    ensures Undisturbed(lineage, run[n]) || Blocked(run[n])
  {
    if n > 0 {
      HarmlessClaim(lineage, run, n - 1);
      assert ProgramStep(lineage, run[n - 1], run[n - 1 + 1]);
      if Undisturbed(lineage, run[n - 1]) {
        UndisturbedPersists(lineage, run[n - 1], run[n]);
      } else {
        BlockedPersists(lineage, run[n - 1], run[n]);
      }
    }
  }

  /** The run in which the stale staging file is published in the source's place. */
  function Begun(lineage: bool, s: State): State
    requires At(s, Source).Some?
  {
    if lineage then s.(ops := s.ops[s.attempts := Lineage(At(s, Source).value, 1, None)]) else s
  }

  function Linked(s: State): State
    requires Staging in s.names
  {
    s.(names := s.names[Output := s.names[Staging]])
  }

  /** The stale file becomes the output. */
  lemma StaleIsLinked(lineage: bool, s: State) returns (run: seq<State>)
    requires JustClaimed(lineage, s) && Endangered(s)
    ensures ProgramRun(lineage, run) && run[0] == s
    ensures run[|run| - 1] == Linked(Begun(lineage, s).(status := Validating, writing := None))
  {
    var begun := Begun(lineage, s);
    var taken := begun.(status := Validating, writing := None);
    run := [s];
    if lineage {
      assert BeginLineage(s, begun);
      run := Continued(lineage, run, begun);
    }
    assert CommitValidating(begun, taken);
    run := Continued(lineage, run, taken);
    if Output !in s.names {
      assert LinkOutput(taken, Linked(taken));
      run := Continued(lineage, run, Linked(taken));
    } else {
      assert Linked(taken).names == taken.names;
      assert Linked(taken) == taken;
    }
  }

  lemma EndangeredClaim(lineage: bool, s: State) returns (run: seq<State>)
    requires JustClaimed(lineage, s) && Endangered(s)
    ensures ProgramRun(lineage, run) && run[0] == s
    ensures !Kept(run[|run| - 1], At(s, Source).value.clip.video)
    ensures run[|run| - 1].custody == s.custody
  {
    run := StaleIsLinked(lineage, s);
    var linked := run[|run| - 1];
    var noted := if lineage then linked.(ops := Published(linked)) else linked;
    var published := noted.(status := CleanupPending, writing := None, current := At(s, Source).value.clip.video);
    var discarded := published.(names := published.names - {Staging});
    var removed := discarded.(names := discarded.names - {Source});
    assert At(linked, Output) == At(s, Staging) && At(linked, Source) == At(s, Source);
    if lineage {
      assert RecordPublished(linked, noted);
      run := Continued(lineage, run, noted);
    }
    assert CommitPublished(lineage, noted, published);
    run := Continued(lineage, run, published);
    assert At(discarded, Output) == At(s, Staging) && At(discarded, Source) == At(s, Source);
    assert Discard(Staging, published, discarded);
    run := Continued(lineage, run, discarded);
    assert RemoveSource(lineage, discarded, removed);
    run := Continued(lineage, run, removed);
  }

  lemma Continued(lineage: bool, run: seq<State>, t: State) returns (longer: seq<State>)
    requires ProgramRun(lineage, run) && ProgramStep(lineage, run[|run| - 1], t)
    ensures ProgramRun(lineage, longer) && longer[0] == run[0] && longer[|longer| - 1] == t
  {
    longer := run + [t];
    forall i | 0 <= i < |longer| - 1 ensures ProgramStep(lineage, longer[i], longer[i + 1]) {
      assert i < |run| - 1 ==> ProgramStep(lineage, run[i], run[i + 1]);
    }
  }

  /**
    Left alone, the program can lose a claimed video if, and only if, the claim
    found a complete staging file of another video and could still publish it.
   */
  lemma ClaimCanLoseIffEndangered(lineage: bool, s: State, video: nat)
    requires JustClaimed(lineage, s) && Holds(s, Source, video) && video in s.custody
    ensures Endangered(s) <==>
      exists run :: ProgramRun(lineage, run) && run[0] == s && !Kept(run[|run| - 1], video)
  {
    if Endangered(s) {
      var run := EndangeredClaim(lineage, s);
    }
    forall run | ProgramRun(lineage, run) && run[0] == s && !Endangered(s)
      ensures Kept(run[|run| - 1], video)
    {
      HarmlessClaim(lineage, run, |run| - 1);
      CustodyUnchanged(lineage, run, |run| - 1);
    }
  }

  lemma {:induction false} CustodyUnchanged(lineage: bool, run: seq<State>, n: nat)
    requires ProgramRun(lineage, run) && n < |run|
    ensures run[n].custody == run[0].custody
  {
    if n > 0 {
      CustodyUnchanged(lineage, run, n - 1);
      assert ProgramStep(lineage, run[n - 1], run[n - 1 + 1]);
    }
  }

  // ---------------------------------------- the same with users taking part

  ghost predicate AnyRun(lineage: bool, run: seq<State>) {
    && |run| > 0
    && forall i :: 0 <= i < |run| - 1 ==> Stepped(lineage, run, i)
  }

  /** Owned and no longer to be found. */
  predicate Lost(s: State, video: nat) {
    video in s.custody && !Kept(s, video)
  }

  /** Waiting at the source, and no file of another video can be taken for it. */
  predicate Waiting(s: State, video: nat) {
    && Holds(s, Source, video) && s.status != CleanupPending
    && (!Stale(s) || Holds(s, Output, video))
  }

  /** Put back while its predecessor's cleanup is pending, but not the file on record. */
  predicate Returned(lineage: bool, s: State, video: nat) {
    && lineage && Holds(s, Source, video) && s.status == CleanupPending && !Stale(s)
    && (s.attempts in s.ops ==> s.ops[s.attempts].source.inode != s.names[Source])
  }

  predicate Delivered(s: State, video: nat) {
    CompleteAt(s, Output) && Holds(s, Output, video)
  }

  predicate Safe(lineage: bool, s: State, video: nat) {
    && Files(s) && video in s.issued
    && (video in s.custody ==> Delivered(s, video) || Waiting(s, video) || Returned(lineage, s, video))
  }

  lemma SafePersists(lineage: bool, s: State, t: State, video: nat)
    requires Safe(lineage, s, video) && (ProgramStep(lineage, s, t) || UserStep(s, t))
    ensures Safe(lineage, t, video)
  {
    if PrepareStep(s, t) {
      PrepareKeepsFiles(s, t);
      SafePrepares(lineage, s, t, video);
    } else if DeliverStep(lineage, s, t) {
      DeliverKeepsFiles(lineage, s, t);
      SafeDelivers(lineage, s, t, video);
    } else {
      UserKeepsFiles(s, t);
      SafeWithUsers(lineage, s, t, video);
    }
  }

  lemma PrepareLeavesEnds(s: State, t: State)
    requires Files(s) && PrepareStep(s, t)
    ensures At(t, Source) == At(s, Source) && At(t, Output) == At(s, Output)
    ensures t.custody == s.custody && t.issued == s.issued
    ensures t.status == CleanupPending <==> s.status == CleanupPending
  {
  }

  lemma PrepareKeepsRecord(s: State, t: State)
    requires PrepareStep(s, t) && s.status == CleanupPending
    ensures t.ops == s.ops && t.attempts == s.attempts
  {
  }

  lemma PrepareStalesNothing(s: State, t: State)
    requires Files(s) && PrepareStep(s, t) && At(s, Source).Some? && !Stale(s)
    ensures !Stale(t)
  {
    assert At(t, Source) == At(s, Source);
  }

  lemma SafePrepares(lineage: bool, s: State, t: State, video: nat)
    requires Safe(lineage, s, video) && PrepareStep(s, t) && Files(t)
    ensures Safe(lineage, t, video)
  {
    hide PrepareStep, Stale;
    PrepareLeavesEnds(s, t);
    if At(s, Source).Some? && !Stale(s) {
      PrepareStalesNothing(s, t);
    }
    if s.status == CleanupPending {
      PrepareKeepsRecord(s, t);
    }
  }

  lemma DeliveryLeavesFiles(lineage: bool, s: State, t: State)
    requires Files(s) && DeliverStep(lineage, s, t)
    ensures At(t, Staging) == At(s, Staging) && (At(s, Output).Some? ==> At(t, Output) == At(s, Output))
    ensures t.custody == s.custody && t.issued == s.issued
  {
  }

  lemma WaitingDelivers(lineage: bool, s: State, t: State, video: nat)
    requires Files(s) && Waiting(s, video) && DeliverStep(lineage, s, t)
    ensures Delivered(t, video) || Waiting(t, video)
  {
    DeliveryLeavesFiles(lineage, s, t);
    assert At(t, Source) == At(s, Source);
  }

  lemma ReturnedStays(lineage: bool, s: State, t: State, video: nat)
    requires Files(s) && Returned(lineage, s, video) && DeliverStep(lineage, s, t)
    ensures Returned(lineage, t, video) || Waiting(t, video)
  {
    assert !RemoveSource(lineage, s, t);
    assert t.names == s.names && t.data == s.data;
  }

  lemma SafeDelivers(lineage: bool, s: State, t: State, video: nat)
    requires Safe(lineage, s, video) && DeliverStep(lineage, s, t) && Files(t)
    ensures Safe(lineage, t, video)
  {
    hide DeliverStep, Stale;
    DeliveryLeavesFiles(lineage, s, t);
    if Waiting(s, video) {
      WaitingDelivers(lineage, s, t, video);
    } else if Returned(lineage, s, video) {
      ReturnedStays(lineage, s, t, video);
    }
  }

  lemma SafeWithUsers(lineage: bool, s: State, t: State, video: nat)
    requires Safe(lineage, s, video) && UserStep(s, t) && Files(t)
    ensures Safe(lineage, t, video)
  {
    assert At(t, Staging) == At(s, Staging);
  }

  lemma {:induction false} SafeForever(lineage: bool, run: seq<State>, video: nat, n: nat)
    requires AnyRun(lineage, run) && n < |run| && Safe(lineage, run[0], video)
    ensures Safe(lineage, run[n], video)
  {
    if n > 0 {
      SafeForever(lineage, run, video, n - 1);
      assert Stepped(lineage, run, n - 1);
      SafePersists(lineage, run[n - 1], run[n], video);
    }
  }

  /** A safe video is kept unless its owners take it back. */
  lemma SafeIsNeverLost(lineage: bool, s: State, video: nat)
    requires Safe(lineage, s, video)
    ensures !exists run :: AnyRun(lineage, run) && run[0] == s && Lost(run[|run| - 1], video)
  {
    forall run | AnyRun(lineage, run) && run[0] == s
      ensures !Lost(run[|run| - 1], video)
    {
      SafeForever(lineage, run, video, |run| - 1);
    }
  }

  lemma AloneIsAnyRun(lineage: bool, run: seq<State>)
    requires ProgramRun(lineage, run)
    ensures AnyRun(lineage, run)
  {
    forall i | 0 <= i < |run| - 1 ensures Stepped(lineage, run, i) {
      assert ProgramStep(lineage, run[i], run[i + 1]);
    }
  }

  lemma Preceded(lineage: bool, s: State, run: seq<State>)
    requires AnyRun(lineage, run) && UserStep(s, run[0])
    ensures AnyRun(lineage, [s] + run)
  {
    var longer := [s] + run;
    forall i | 0 <= i < |longer| - 1 ensures Stepped(lineage, longer, i) {
      assert i > 0 ==> Stepped(lineage, run, i - 1);
    }
  }

  /** Users clear the output name; recovery then publishes the stale file. */
  lemma StaleClaim(lineage: bool, s: State, video: nat) returns (run: seq<State>)
    requires JustClaimed(lineage, s) && Holds(s, Source, video) && video in s.custody
    requires Stale(s) && !Holds(s, Output, video)
    ensures AnyRun(lineage, run) && run[0] == s && Lost(run[|run| - 1], video)
  {
    if Endangered(s) {
      run := EndangeredClaim(lineage, s);
      AloneIsAnyRun(lineage, run);
    } else {
      var cleared := s.(names := s.names - {Output}, custody := s.custody - {At(s, Output).value.clip.video});
      assert TakeOutput(s, cleared);
      assert At(cleared, Source) == At(s, Source) && At(cleared, Staging) == At(s, Staging);
      assert forall v :: v in cleared.custody ==> Kept(s, v) && Kept(cleared, v);
      var more := EndangeredClaim(lineage, cleared);
      AloneIsAnyRun(lineage, more);
      Preceded(lineage, s, more);
      run := [s] + more;
    }
  }

  /**
    Whatever users do after the claim, the claimed video can be lost while it is
    theirs if, and only if, the claim found a complete staging file of another
    video, and the output does not hold the same video already.
   */
  lemma ClaimCanLoseIffStale(lineage: bool, s: State, video: nat)
    requires JustClaimed(lineage, s) && Holds(s, Source, video) && video in s.custody
    ensures Stale(s) && !Holds(s, Output, video) <==>
      exists run :: AnyRun(lineage, run) && run[0] == s && Lost(run[|run| - 1], video)
  {
    if Stale(s) && !Holds(s, Output, video) {
      var run := StaleClaim(lineage, s, video);
    } else {
      SafeIsNeverLost(lineage, s, video);
    }
  }

  // ------------------------------------------ both kinds of loss are reachable

  const FIRST := Clip(1, true)
  const SECOND := Clip(2, true)
  const STRANGER := Clip(3, true)

  /** An attempt on the first video begins. */
  lemma StartedAttempt() returns (run: seq<State>)
    ensures Run(true, run)
    ensures run[|run| - 1] == State(map[Source := 0], map[0 := FIRST], Processing, 1, 1,
                                    map[1 := Lineage(Snapshot(0, FIRST), 1, None)], None, 0, {1}, {1})
  {
    var a := State(map[], map[], Unregistered, 0, 0, map[], None, 0, {}, {});
    var b := a.(names := map[Source := 0], data := map[0 := FIRST], custody := {1}, issued := {1});
    assert PlaceSource(a, b);
    var c := b.(status := WaitingStable, stamp := 1);
    assert Refresh(b, c);
    var d := c.(status := Ready);
    assert Refresh(c, d);
    var e := d.(status := Processing, attempts := 1);
    assert Claim(d, e);
    var f := e.(ops := map[1 := Lineage(Snapshot(0, FIRST), 1, None)]);
    assert BeginLineage(e, f);
    run := [a, b, c, d, e, f];
    assert Run(true, run);
  }

  /** It fails at publication and leaves its staging file. */
  lemma FailedAttempt() returns (run: seq<State>)
    ensures Run(true, run)
    ensures var s := run[|run| - 1];
            && s.status == Failed && s.stamp == 1 && s.attempts == 1 && s.writing == None
            && s.names == map[Source := 0, Staging := 1, Output := 2]
            && s.data == map[0 := FIRST, 1 := FIRST, 2 := STRANGER]
            && s.custody == {1} && s.issued == {1, 3}
            && s.ops.Keys == {1} && s.ops[1].source.inode == 0
  {
    run := StartedAttempt();
    var f := run[|run| - 1];
    var g := f.(names := f.names[Staging := 1], data := f.data[1 := Clip(1, false)], writing := Some(1));
    assert OpenFile(Staging, f, g);
    Extend(true, run, g);
    run := run + [g];
    var h := g.(data := g.data[1 := FIRST]);
    assert WriteFile(g, h);
    Extend(true, run, h);
    run := run + [h];
    var i := h.(status := Validating, writing := None);
    assert CommitValidating(h, i);
    Extend(true, run, i);
    run := run + [i];
    var j := i.(names := i.names[Output := 2], data := i.data[2 := STRANGER], issued := {1, 3});
    assert PlaceOutput(i, j);
    Extend(true, run, j);
    run := run + [j];
    var k := j.(status := Failed, writing := None);
    assert Fail(j, k);
    Extend(true, run, k);
    run := run + [k];
  }

  /** Users then swap in a second video and clear the output name. */
  lemma SwappedVideo() returns (run: seq<State>)
    ensures Run(true, run)
    ensures var s := run[|run| - 1];
            && s.status == Failed && s.stamp == 1 && s.attempts == 1 && s.writing == None
            && s.names == map[Staging := 1, Source := 3]
            && s.data == map[0 := FIRST, 1 := FIRST, 2 := STRANGER, 3 := SECOND]
            && s.custody == {2} && s.issued == {1, 2, 3}
            && s.ops.Keys == {1} && s.ops[1].source.inode == 0
  {
    run := FailedAttempt();
    var s := run[|run| - 1];
    var a := s.(names := s.names - {Source}, custody := s.custody - {1});
    assert TakeSource(s, a);
    Extend(true, run, a);
    run := run + [a];
    var b := a.(names := a.names - {Output}, custody := a.custody - {3});
    assert TakeOutput(a, b);
    Extend(true, run, b);
    run := run + [b];
    var c := b.(names := b.names[Source := 3], data := b.data[3 := SECOND],
                custody := b.custody + {2}, issued := b.issued + {2});
    assert PlaceSource(b, c);
    Extend(true, run, c);
    run := run + [c];
    assert c.names == map[Staging := 1, Source := 3];
  }

  lemma StaleClaimIsReachable() returns (run: seq<State>)
    ensures Run(true, run)
    ensures JustClaimed(true, run[|run| - 1]) && Endangered(run[|run| - 1])
    ensures Holds(run[|run| - 1], Source, 2) && 2 in run[|run| - 1].custody
  {
    run := SwappedVideo();
    var c := run[|run| - 1];
    var d := c.(status := WaitingStable, stamp := 2);
    assert Refresh(c, d);
    Extend(true, run, d);
    run := run + [d];
    var e := d.(status := Ready);
    assert Refresh(d, e);
    Extend(true, run, e);
    run := run + [e];
    var f := e.(status := Processing, attempts := 2);
    assert Claim(e, f);
    Extend(true, run, f);
    run := run + [f];
  }

  lemma {:induction false} Append(lineage: bool, run: seq<State>, more: seq<State>)
    requires Run(lineage, run) && ProgramRun(lineage, more) && run[|run| - 1] == more[0]
    ensures Run(lineage, run + more[1..])
    decreases |more|
  {
    if |more| == 1 {
      assert run + more[1..] == run;
    } else {
      assert ProgramStep(lineage, more[0], more[0 + 1]);
      Extend(lineage, run, more[1]);
      forall i | 0 <= i < |more[1..]| - 1 ensures ProgramStep(lineage, more[1..][i], more[1..][i + 1]) {
        assert ProgramStep(lineage, more[i + 1], more[i + 1 + 1]);
      }
      Append(lineage, run + [more[1]], more[1..]);
      assert run + [more[1]] + more[1..][1..] == run + more[1..];
    }
  }

  /** Even with lineage on, and users who never touch a mission under way. */
  lemma StaleStagingLosesAVideo() returns (run: seq<State>)
    ensures Run(true, run) && !Custody(run[|run| - 1])
  {
    run := StaleClaimIsReachable();
    var more := EndangeredClaim(true, run[|run| - 1]);
    Append(true, run, more);
    run := run + more[1..];
  }

  // ------------------------- a video put back while its predecessor's cleanup is pending

  lemma ReturnedIsSafe(run: seq<State>, t: State)
    requires Run(true, run) && run[|run| - 1].status == CleanupPending && PlaceSource(run[|run| - 1], t)
    ensures Safe(true, t, At(t, Source).value.clip.video)
  {
    var s := run[|run| - 1];
    RunKeepsFiles(true, run, |run| - 1);
    UserKeepsFiles(s, t);
    assert Returned(true, t, At(t, Source).value.clip.video);
  }

  function Removed(t: State): State {
    t.(names := t.names - {Source})
  }

  /** With lineage off a complete file at the output is all that cleanup asks for. */
  lemma UnrecordedCleanup(run: seq<State>, t: State)
    requires Run(false, run) && run[|run| - 1].status == CleanupPending && PlaceSource(run[|run| - 1], t)
    requires CompleteAt(t, Output)
    ensures RemoveSource(false, t, Removed(t)) && Lost(Removed(t), At(t, Source).value.clip.video)
  {
    RunKeepsFiles(false, run, |run| - 1);
    assert At(t, Output) == At(run[|run| - 1], Output);
  }

  lemma SomeUnused(used: set<nat>) returns (n: nat)
    ensures n !in used && forall m :: m in used ==> m < n
  {
    if used == {} {
      n := 0;
    } else {
      var x :| x in used;
      var rest := SomeUnused(used - {x});
      n := if rest <= x then x + 1 else rest;
      assert forall m :: m in used ==> m == x || m in used - {x};
    }
  }

  /** Without a complete output, users first put some other video there. */
  lemma UnrecordedReplacement(run: seq<State>, t: State) returns (more: seq<State>)
    requires Run(false, run) && run[|run| - 1].status == CleanupPending && PlaceSource(run[|run| - 1], t)
    requires !CompleteAt(t, Output)
    ensures AnyRun(false, more) && more[0] == t && Lost(more[|more| - 1], At(t, Source).value.clip.video)
  {
    var s := run[|run| - 1];
    RunKeepsFiles(false, run, |run| - 1);
    UserKeepsFiles(s, t);
    var cleared := if Output in t.names
      then t.(names := t.names - {Output}, custody := t.custody - {At(t, Output).value.clip.video}) else t;
    assert At(t, Output) == At(s, Output);
    assert At(cleared, Source) == At(t, Source);
    var inode := SomeUnused(t.data.Keys);
    var stranger := SomeUnused(t.issued);
    var placed := cleared.(names := cleared.names[Output := inode], data := t.data[inode := Clip(stranger, true)],
                           issued := t.issued + {stranger});
    assert PlaceOutput(cleared, placed);
    assert At(placed, Source) == At(t, Source);
    assert RemoveSource(false, placed, Removed(placed));
    more := [placed, Removed(placed)];
    assert Stepped(false, more, 0);
    Preceded(false, cleared, more);
    more := [cleared] + more;
    if Output in t.names {
      assert TakeOutput(t, cleared);
      Preceded(false, t, more);
      more := [t] + more;
    }
  }

  /**
    A video put back while the cleanup of its predecessor is pending: it can
    be lost in some continuation if, and only if, lineage is off.
   */
  lemma ReturnedVideoAtRiskIffLineageOff(lineage: bool, run: seq<State>, t: State)
    requires Run(lineage, run) && run[|run| - 1].status == CleanupPending && PlaceSource(run[|run| - 1], t)
    ensures !lineage <==>
      exists more :: AnyRun(lineage, more) && more[0] == t && Lost(more[|more| - 1], At(t, Source).value.clip.video)
  {
    if lineage {
      ReturnedIsSafe(run, t);
      SafeIsNeverLost(true, t, At(t, Source).value.clip.video);
    } else if CompleteAt(t, Output) {
      UnrecordedCleanup(run, t);
      var more := [t, Removed(t)];
      assert Stepped(false, more, 0);
    } else {
      var more := UnrecordedReplacement(run, t);
    }
  }

  /** While the delivered output is in place, the program needs nobody's help. */
  lemma CleanupAloneLosesIffLineageOff(lineage: bool, run: seq<State>, t: State)
    requires Run(lineage, run) && run[|run| - 1].status == CleanupPending && PlaceSource(run[|run| - 1], t)
    requires CompleteAt(t, Output)
    ensures !lineage <==>
      exists more :: ProgramRun(lineage, more) && more[0] == t && Lost(more[|more| - 1], At(t, Source).value.clip.video)
  {
    if lineage {
      ReturnedIsSafe(run, t);
      SafeIsNeverLost(true, t, At(t, Source).value.clip.video);
      forall more | ProgramRun(true, more) ensures AnyRun(true, more) {
        AloneIsAnyRun(true, more);
      }
    } else {
      UnrecordedCleanup(run, t);
      var more := [t, Removed(t)];
      assert ProgramStep(false, more[0], more[0 + 1]);
    }
  }

  /** An attempt without lineage prepares its staging file. */
  lemma UnrecordedAttempt() returns (run: seq<State>)
    ensures Run(false, run)
    ensures run[|run| - 1] == State(map[Source := 0, Staging := 1], map[0 := FIRST, 1 := FIRST], Processing, 1, 1,
                                    map[], Some(1), 0, {1}, {1})
  {
    var a := State(map[], map[], Unregistered, 0, 0, map[], None, 0, {}, {});
    var b := a.(names := map[Source := 0], data := map[0 := FIRST], custody := {1}, issued := {1});
    assert PlaceSource(a, b);
    var c := b.(status := WaitingStable, stamp := 1);
    assert Refresh(b, c);
    var d := c.(status := Ready);
    assert Refresh(c, d);
    var e := d.(status := Processing, attempts := 1);
    assert Claim(d, e);
    var f := e.(names := map[Source := 0, Staging := 1], data := map[0 := FIRST, 1 := Clip(1, false)], writing := Some(1));
    assert OpenFile(Staging, e, f);
    var g := f.(data := map[0 := FIRST, 1 := FIRST]);
    assert WriteFile(f, g);
    run := [a, b, c, d, e, f, g];
    assert Run(false, run);
  }

  /** It is published, and the source removed. */
  lemma UnrecordedDelivery() returns (run: seq<State>)
    ensures Run(false, run)
    ensures var s := run[|run| - 1];
            && s.names == map[Output := 1] && s.data == map[0 := FIRST, 1 := FIRST]
            && s.status == CleanupPending && s.custody == {1} && s.issued == {1}
  {
    run := UnrecordedAttempt();
    var g := run[|run| - 1];
    var h := g.(status := Validating, writing := None);
    assert CommitValidating(g, h);
    Extend(false, run, h);
    run := run + [h];
    var i := h.(names := map[Source := 0, Staging := 1, Output := 1]);
    assert LinkOutput(h, i);
    Extend(false, run, i);
    run := run + [i];
    var j := i.(status := CleanupPending, current := 1);
    assert CommitPublished(false, i, j);
    Extend(false, run, j);
    run := run + [j];
    var k := j.(names := map[Source := 0, Output := 1]);
    assert Discard(Staging, j, k);
    Extend(false, run, k);
    run := run + [k];
    var l := k.(names := map[Output := 1]);
    assert RemoveSource(false, k, l);
    Extend(false, run, l);
    run := run + [l];
  }

  /** The program stops there; a second video arrives; recovery removes it. */
  lemma ReturnedVideoIsLost() returns (run: seq<State>)
    ensures Run(false, run) && !Custody(run[|run| - 1])
  {
    run := UnrecordedDelivery();
    var s := run[|run| - 1];
    var t := s.(names := map[Output := 1, Source := 2], data := s.data[2 := SECOND],
                custody := {1, 2}, issued := {1, 2});
    assert PlaceSource(s, t);
    UnrecordedCleanup(run, t);
    assert Lost(Removed(t), 2);
    Extend(false, run, t);
    Extend(false, run + [t], Removed(t));
    run := run + [t] + [Removed(t)];
  }
}
