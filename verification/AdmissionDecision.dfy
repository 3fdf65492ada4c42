/**
  When a waiting request is given its lease: the exact condition, read from the
  rows before the request, as sets of rows and sums over them.
 */
module AdmissionDecision {
  import opened Wrappers
  import opened Admission
  import opened AdmissionLaws
  import opened AdmissionAnswers

  /** Row `i` belongs to somebody else, and stays, on the device asked for. */
  predicate Stays(rows: seq<Row>, q: Request, w: World, i: nat)
    requires i < |rows|
  {
    rows[i].owner != q.owner && rows[i].device == q.device && !Restarts(rows[i], q.device, w)
  }

  /** It uses the device, or nobody can say that it does not. */
  predicate Busy(rows: seq<Row>, q: Request, w: World, i: nat)
    requires i < |rows|
  {
    Stays(rows, q, w, i) && (rows[i].status in {Active, Conflict} || Doubts(rows[i], q.device, w))
  }

  predicate Disputed(rows: seq<Row>, q: Request, w: World, i: nat)
    requires i < |rows|
  {
    Stays(rows, q, w, i) && (rows[i].status == Conflict || Doubts(rows[i], q.device, w))
  }

  /** It waits, and came before the time and number of the caller's row. */
  predicate Queued(rows: seq<Row>, q: Request, w: World, created: nat, id: nat, i: nat)
    requires i < |rows|
  {
    && Stays(rows, q, w, i) && rows[i].status == Waiting && !Doubts(rows[i], q.device, w)
    && (rows[i].created < created || (rows[i].created == created && rows[i].id < id))
  }

  /**
    The caller waits for its lease: for the first time, again after its row was
    given up, or still. `created` and `id` are its place in the queue, `had` is
    the budget its row has.
   */
  predicate CallerWaits(rows: seq<Row>, q: Request, w: World, created: nat, id: nat, had: nat) {
    || ((forall i :: 0 <= i < |rows| ==> rows[i].owner != q.owner) && created == w.now && id == q.newId && had == 0)
    || (exists i :: 0 <= i < |rows| && CallerWaitsAt(rows, q, w, created, id, had, i))
  }

  predicate CallerWaitsAt(rows: seq<Row>, q: Request, w: World, created: nat, id: nat, had: nat, i: nat)
    requires i < |rows|
  {
    var r := rows[i];
    && r.owner == q.owner && r.device == q.device && r.mode == q.mode && id == r.id && had == Had(r)
    && (if Restarts(r, q.device, w) then created == w.now
        else r.status == Waiting && !Doubts(r, q.device, w) && created == r.created)
  }

  predicate ValidBudget(q: Request) { q.mode == Shared ==> q.budget > 0 && q.reserve > 0 }

  /** The row of the caller among the rows after the sweep. */
  lemma CallerEnters(rows: seq<Row>, q: Request, w: World, created: nat, id: nat, had: nat)
    requires Unique(rows) && ValidBudget(q) && CallerWaits(rows, q, w, created, id, had)
    ensures Enter(rows, q, w).Ok?
    ensures var (entered, k) := Enter(rows, q, w).value;
            && |rows| <= |entered| && |entered| <= |rows| + 1 && (|entered| > |rows| ==> k == |rows|)
            && entered[k].owner == q.owner && entered[k].device == q.device && entered[k].mode == q.mode
            && entered[k].created == created && entered[k].id == id && entered[k].status == Waiting
            && (k < |rows| ==> rows[k].owner == q.owner)
            && (forall i :: 0 <= i < |rows| && i != k ==>
                  rows[i].owner != q.owner && entered[i] == Swept(rows[i], q.device, w))
            && (q.mode == Shared ==> Carries(entered[k], had, q))
  {
    hide Doubts, Drops, Restarts;
    if forall i :: 0 <= i < |rows| ==> rows[i].owner != q.owner {
      NobodyIsFound(rows, q, w);
    } else {
      var i :| 0 <= i < |rows| && CallerWaitsAt(rows, q, w, created, id, had, i);
      CallerIsFound(rows, q, w, i);
      WaitingCallerIsSwept(rows[i], q, w);
      assert Sweep(rows, q.device, w)[i] == Swept(rows[i], q.device, w);
    }
    EnterShape(rows, q, w);
    var (entered, k) := Enter(rows, q, w).value;
    forall i | 0 <= i < |rows| && i != k ensures rows[i].owner != q.owner {
      if k < |rows| {
        assert rows[k].owner == q.owner;
      }
    }
  }

  lemma WaitingCallerIsSwept(r: Row, q: Request, w: World)
    ensures var swept := Swept(r, q.device, w);
            && SameLease(r, swept) && swept.budget == r.budget && swept.created == r.created
            && (Restarts(r, q.device, w) <==> swept.status == Released)
            && (r.status == Waiting && !Restarts(r, q.device, w) && !Doubts(r, q.device, w) ==> swept.status == Waiting)
  {
    SweptIs(r, q.device, w);
  }

  /** Who competes with the caller, and who is ahead of it, in terms of the rows before. */
  lemma OthersAre(rows: seq<Row>, q: Request, w: World, created: nat, id: nat, had: nat, i: nat)
    requires Unique(rows) && ValidBudget(q) && CallerWaits(rows, q, w, created, id, had) && i < |rows|
    ensures Enter(rows, q, w).Ok?
    ensures var (entered, k) := Enter(rows, q, w).value;
            && i < |entered| && (Competes(entered, k, i) <==> Busy(rows, q, w, i))
            && (Ahead(entered, k, i) && i != k <==> Queued(rows, q, w, created, id, i))
            && (i != k ==> entered[i].mode == rows[i].mode && entered[i].workload == rows[i].workload
                           && entered[i].budget == rows[i].budget && entered[i].children == rows[i].children
                           && entered[i].created == rows[i].created && entered[i].id == rows[i].id)
            && (Busy(rows, q, w, i) ==> (entered[i].status == Conflict <==> Disputed(rows, q, w, i)))
  {
    hide Enter;
    CallerEnters(rows, q, w, created, id, had);
    SweptIs(rows[i], q.device, w);
  }

  // --------------------------------------------------------------------- counts

  /** The rows that do the same kind of work. */
  ghost function SameKind(rows: seq<Row>, q: Request, w: World, n: nat): (same: set<nat>)
    requires n <= |rows|
  {
    set i: nat | i < n && Busy(rows, q, w, i) && WorkloadOf(rows[i]) == q.workload
  }

  lemma SameKindNext(rows: seq<Row>, q: Request, w: World, n: nat)
    requires 0 < n <= |rows|
    ensures |SameKind(rows, q, w, n)| == |SameKind(rows, q, w, n - 1)|
              + if Busy(rows, q, w, n - 1) && WorkloadOf(rows[n - 1]) == q.workload then 1 else 0
  {
    hide Busy;
    var more := if Busy(rows, q, w, n - 1) && WorkloadOf(rows[n - 1]) == q.workload then {n - 1} else {};
    assert SameKind(rows, q, w, n) == SameKind(rows, q, w, n - 1) + more;
    assert SameKind(rows, q, w, n - 1) !! more;
  }

  lemma {:induction false} SameKindIsCounted(rows: seq<Row>, q: Request, w: World, created: nat, id: nat, had: nat, n: nat)
    requires Unique(rows) && ValidBudget(q) && CallerWaits(rows, q, w, created, id, had) && n <= |rows|
    ensures Enter(rows, q, w).Ok? && |rows| <= |Enter(rows, q, w).value.0|
    ensures var (entered, k) := Enter(rows, q, w).value;
            SameType(entered, k, n, q.workload) == |SameKind(rows, q, w, n)|
  {
    hide Enter, Competes, Busy, CallerWaits, Unique, Doubts, Restarts, Queued;
    CallerEnters(rows, q, w, created, id, had);
    if n == 0 {
      assert SameKind(rows, q, w, 0) == {};
    } else {
      hide SameKind;
      SameKindIsCounted(rows, q, w, created, id, had, n - 1);
      SameKindNext(rows, q, w, n);
      OthersAre(rows, q, w, created, id, had, n - 1);
      if Busy(rows, q, w, n - 1) {
        CompetitorIsOther(rows, q, w, created, id, had, n - 1);
      }
    }
  }

  lemma CompetitorIsOther(rows: seq<Row>, q: Request, w: World, created: nat, id: nat, had: nat, i: nat)
    requires Unique(rows) && ValidBudget(q) && CallerWaits(rows, q, w, created, id, had) && i < |rows|
    requires Busy(rows, q, w, i)
    ensures Enter(rows, q, w).Ok? && i != Enter(rows, q, w).value.1
  {
    OthersAre(rows, q, w, created, id, had, i);
  }

  /** How many leases of one kind may run. */
  predicate Below(q: Request, running: nat) {
    match q.workload
    case Extract => running < q.capacity
    case Predict => running < 2
    case Compression => running == 0
  }

  // --------------------------------------------------------------------- memory

  /** What a lease is entitled to once it was seen to use `used`. */
  function Entitled(r: Row, used: nat): nat {
    if used <= Budget(r) then Budget(r) else used + used / 10 + 1
  }

  /** What the leases on the device may still take, as far as the sample tells. */
  function Outstanding(rows: seq<Row>, q: Request, w: World, n: nat): int
    requires n <= |rows| && w.sample.Some?
  {
    if n == 0 then 0
    else
      var used := ObservedBy(rows[n - 1], w);
      Outstanding(rows, q, w, n - 1) + if Busy(rows, q, w, n - 1) then Entitled(rows[n - 1], used) - used else 0
  }

  lemma ClaimIs(r: Row, w: World)
    requires w.sample.Some?
    ensures Max(0, Budget(Measured(r, w)) - ObservedBy(r, w)) == Entitled(r, ObservedBy(r, w)) - ObservedBy(r, w)
    ensures Budget(Measured(r, w)) == Entitled(r, ObservedBy(r, w))
  {
    var used := ObservedBy(r, w);
    assert used * 11 / 10 == used + used / 10;
  }

  lemma {:induction false} PendingIs(rows: seq<Row>, q: Request, w: World, created: nat, id: nat, had: nat, n: nat)
    requires Unique(rows) && ValidBudget(q) && CallerWaits(rows, q, w, created, id, had) && n <= |rows| && w.sample.Some?
    ensures Enter(rows, q, w).Ok? && |rows| <= |Enter(rows, q, w).value.0|
    ensures var (entered, k) := Enter(rows, q, w).value;
            Pending(entered, k, w, n) == Outstanding(rows, q, w, n)
  {
    hide Enter, Competes, Busy, CallerWaits, Measured, Observed, Entitled;
    CallerEnters(rows, q, w, created, id, had);
    if n > 0 {
      PendingIs(rows, q, w, created, id, had, n - 1);
      OthersAre(rows, q, w, created, id, had, n - 1);
      if Busy(rows, q, w, n - 1) {
        CompetitorIsOther(rows, q, w, created, id, had, n - 1);
        var (entered, _) := Enter(rows, q, w).value;
        ClaimIs(entered[n - 1], w);
        EntitledByBudget(entered[n - 1], rows[n - 1], ObservedBy(rows[n - 1], w));
      }
    }
  }

  lemma EntitledByBudget(a: Row, b: Row, used: nat)
    requires a.budget == b.budget
    ensures Entitled(a, used) == Entitled(b, used)
  {
  }

  // ------------------------------------------------------------ room for encoders

  predicate WaitingEncoder(rows: seq<Row>, q: Request, w: World, created: nat, id: nat, i: nat)
    requires i < |rows|
  {
    Queued(rows, q, w, created, id, i) && rows[i].mode == Shared && rows[i].workload == Some(Compression)
  }

  predicate RunningEncoder(rows: seq<Row>, q: Request, w: World, i: nat)
    requires i < |rows|
  {
    Busy(rows, q, w, i) && rows[i].mode == Shared && rows[i].workload == Some(Compression)
  }

  predicate OldestWaiting(rows: seq<Row>, q: Request, w: World, created: nat, id: nat, e: nat)
    requires e < |rows|
  {
    && WaitingEncoder(rows, q, w, created, id, e)
    && forall i :: 0 <= i < |rows| && WaitingEncoder(rows, q, w, created, id, i) ==> i == e || !Before(rows[i], rows[e])
  }

  /** Memory kept free: the budget of the encoder that waits longest, while none runs. */
  predicate KeptFree(rows: seq<Row>, q: Request, w: World, created: nat, id: nat, room: nat) {
    if q.workload == Compression || (exists i :: 0 <= i < |rows| && RunningEncoder(rows, q, w, i)) then room == 0
    else
      || (room == 0 && forall i :: 0 <= i < |rows| ==> !WaitingEncoder(rows, q, w, created, id, i))
      || (exists e :: 0 <= e < |rows| && OldestWaiting(rows, q, w, created, id, e) && room == Budget(rows[e]))
  }

  lemma EncodersAre(rows: seq<Row>, q: Request, w: World, created: nat, id: nat, had: nat, i: nat)
    requires Unique(rows) && ValidBudget(q) && CallerWaits(rows, q, w, created, id, had)
    requires Enter(rows, q, w).Ok? && i < |Enter(rows, q, w).value.0| && q.workload != Compression && q.mode == Shared
    ensures var (entered, k) := Enter(rows, q, w).value;
            && (EncoderAhead(entered, k, i) <==> i < |rows| && WaitingEncoder(rows, q, w, created, id, i))
            && (Competes(entered, k, i) && entered[i].mode == Shared && entered[i].workload == Some(Compression)
                <==> i < |rows| && RunningEncoder(rows, q, w, i))
  {
    hide Enter, Competes, Busy, CallerWaits, Queued;
    CallerEnters(rows, q, w, created, id, had);
    if i < |rows| {
      OthersAre(rows, q, w, created, id, had, i);
      QueuedIsOther(rows, q, w, created, id, had, i);
    } else {
      NotItself(Enter(rows, q, w).value.0, i);
    }
  }

  lemma NotItself(rows: seq<Row>, k: nat)
    requires k < |rows|
    ensures !Competes(rows, k, k) && !Ahead(rows, k, k)
  {
  }

  lemma QueuedIsOther(rows: seq<Row>, q: Request, w: World, created: nat, id: nat, had: nat, i: nat)
    requires Unique(rows) && ValidBudget(q) && CallerWaits(rows, q, w, created, id, had) && i < |rows|
    ensures Enter(rows, q, w).Ok?
    ensures var (entered, k) := Enter(rows, q, w).value;
            && (Busy(rows, q, w, i) || Queued(rows, q, w, created, id, i) ==> i != k)
            && (i < |entered| && (Ahead(entered, k, i) || Competes(entered, k, i)) ==> i != k)
  {
    CallerEnters(rows, q, w, created, id, had);
    NotItself(Enter(rows, q, w).value.0, Enter(rows, q, w).value.1);
  }

  lemma RoomIsEarmark(rows: seq<Row>, q: Request, w: World, created: nat, id: nat, had: nat, room: nat)
    requires Unique(rows) && ValidBudget(q) && CallerWaits(rows, q, w, created, id, had) && q.mode == Shared
    requires KeptFree(rows, q, w, created, id, room)
    ensures Enter(rows, q, w).Ok?
    ensures var (entered, k) := Enter(rows, q, w).value; Earmark(entered, k, q) == room
  {
    hide Enter, CallerWaits, Busy, Queued, Competes, Ahead;
    CallerEnters(rows, q, w, created, id, had);
    var (entered, k) := Enter(rows, q, w).value;
    if q.workload != Compression {
      forall i | 0 <= i < |entered|
        ensures EncoderAhead(entered, k, i) <==> i < |rows| && WaitingEncoder(rows, q, w, created, id, i)
        ensures Competes(entered, k, i) && entered[i].mode == Shared && entered[i].workload == Some(Compression)
                <==> i < |rows| && RunningEncoder(rows, q, w, i)
        ensures i < |rows| && WaitingEncoder(rows, q, w, created, id, i) ==>
                  entered[i].budget == rows[i].budget && entered[i].created == rows[i].created && entered[i].id == rows[i].id
      {
        EncodersAre(rows, q, w, created, id, had, i);
        if i < |rows| {
          OthersAre(rows, q, w, created, id, had, i);
          QueuedIsOther(rows, q, w, created, id, had, i);
        }
      }
      var oldest := OldestEncoder(entered, k, |entered|);
      if oldest.Some? {
        var o := oldest.value;
        assert WaitingEncoder(rows, q, w, created, id, o);
        forall e | 0 <= e < |rows| && OldestWaiting(rows, q, w, created, id, e) ensures e == o {
          assert e != o ==> rows[e].id != rows[o].id;
          assert !Before(entered[e], entered[o]);
          assert o == e || !Before(rows[o], rows[e]);
        }
      }
    }
  }

  // -------------------------------------------------------------------- decisions

  /** Nothing stands in the way of a shared lease but perhaps memory. */
  ghost predicate Clear(rows: seq<Row>, q: Request, w: World, created: nat, id: nat) {
    && (forall i :: 0 <= i < |rows| ==> !Disputed(rows, q, w, i))
    && (forall i :: 0 <= i < |rows| && rows[i].mode != Shared ==>
          !Busy(rows, q, w, i) && !Queued(rows, q, w, created, id, i))
    && Below(q, |SameKind(rows, q, w, |rows|)|)
  }

  lemma CallerIsNotCounted(rows: seq<Row>, q: Request, w: World, created: nat, id: nat, had: nat)
    requires Unique(rows) && ValidBudget(q) && CallerWaits(rows, q, w, created, id, had)
    ensures Enter(rows, q, w).Ok? && |rows| <= |Enter(rows, q, w).value.0|
    ensures var (entered, k) := Enter(rows, q, w).value;
            && SameType(entered, k, |entered|, q.workload) == SameType(entered, k, |rows|, q.workload)
            && (w.sample.Some? ==> Pending(entered, k, w, |entered|) == Pending(entered, k, w, |rows|))
  {
    hide Enter, CallerWaits;
    CallerEnters(rows, q, w, created, id, had);
    var (entered, k) := Enter(rows, q, w).value;
    NotItself(entered, k);
  }

  lemma ClearIsEligible(rows: seq<Row>, q: Request, w: World, created: nat, id: nat, had: nat)
    requires Unique(rows) && ValidBudget(q) && CallerWaits(rows, q, w, created, id, had) && q.mode == Shared
    ensures Enter(rows, q, w).Ok?
    ensures var (entered, k) := Enter(rows, q, w).value; Eligible(entered, k, q) <==> Clear(rows, q, w, created, id)
  {
    hide Enter, CallerWaits, Busy, Queued, Competes, Ahead, Disputed;
    CallerEnters(rows, q, w, created, id, had);
    CallerIsNotCounted(rows, q, w, created, id, had);
    SameKindIsCounted(rows, q, w, created, id, had, |rows|);
    var (entered, k) := Enter(rows, q, w).value;
    NotItself(entered, k);
    forall i | 0 <= i < |rows|
      ensures Competes(entered, k, i) <==> Busy(rows, q, w, i)
      ensures Ahead(entered, k, i) <==> Queued(rows, q, w, created, id, i)
      ensures Busy(rows, q, w, i) || Queued(rows, q, w, created, id, i) ==> entered[i].mode == rows[i].mode
      ensures Busy(rows, q, w, i) ==> (entered[i].status == Conflict <==> Disputed(rows, q, w, i))
      ensures Disputed(rows, q, w, i) ==> Busy(rows, q, w, i)
      ensures Competes(entered, k, i) ==> entered[i].status in {Active, Conflict}
    {
      OthersAre(rows, q, w, created, id, had, i);
      QueuedIsOther(rows, q, w, created, id, had, i);
      DisputedIsBusy(rows, q, w, i);
      CompetitorUses(entered, k, i);
    }
  }

  lemma DisputedIsBusy(rows: seq<Row>, q: Request, w: World, i: nat)
    requires i < |rows|
    ensures Disputed(rows, q, w, i) ==> Busy(rows, q, w, i)
  {
  }

  lemma CompetitorUses(rows: seq<Row>, k: nat, i: nat)
    requires k < |rows| && i < |rows|
    ensures Competes(rows, k, i) ==> rows[i].status in {Active, Conflict}
  {
  }

  predicate HasMemory(rows: seq<Row>, q: Request, w: World, budget: nat, room: nat) {
    w.sample.Some? && w.sample.value.available - Outstanding(rows, q, w, |rows|) - room >= budget + q.reserve
  }

  /**
    A shared request is given its lease exactly when no holder on the device is
    in doubt, nothing exclusive runs there or came first, fewer leases of its
    kind run than may, and, where memory is checked, the free memory less what
    the others may still take and what is kept for an encoder covers its budget
    and the reserve.
   */
  lemma SharedIsGrantedIff(rows: seq<Row>, q: Request, w: World, created: nat, id: nat, had: nat, budget: nat, room: nat)
    requires Unique(rows) && q.mode == Shared && ValidBudget(q) && CallerWaits(rows, q, w, created, id, had)
    requires budget == Max(had, Max(q.budget, q.floor)) && KeptFree(rows, q, w, created, id, room)
    ensures Requested(rows, q, w).Ok?
    ensures Requested(rows, q, w).value.1 ==
            if Clear(rows, q, w, created, id)
               && (!q.checkMemory || HasMemory(rows, q, w, budget, room))
            then Some(id) else None
  {
    hide Enter, CallerWaits, Clear, KeptFree, Eligible, Earmark, Pending, Outstanding, Measured;
    CallerEnters(rows, q, w, created, id, had);
    CallerIsNotCounted(rows, q, w, created, id, had);
    ClearIsEligible(rows, q, w, created, id, had);
    RoomIsEarmark(rows, q, w, created, id, had, room);
    if w.sample.Some? {
      PendingIs(rows, q, w, created, id, had, |rows|);
    }
  }

  /** An exclusive request is given its lease exactly when nothing runs and nobody came first. */
  lemma ExclusiveIsGrantedIff(rows: seq<Row>, q: Request, w: World, created: nat, id: nat, had: nat)
    requires Unique(rows) && q.mode != Shared && CallerWaits(rows, q, w, created, id, had)
    ensures Requested(rows, q, w).Ok?
    ensures Requested(rows, q, w).value.1 ==
            if forall i :: 0 <= i < |rows| ==> !Busy(rows, q, w, i) && !Queued(rows, q, w, created, id, i)
            then Some(id) else None
  {
    hide Enter, CallerWaits, Busy, Queued, Competes, Ahead;
    CallerEnters(rows, q, w, created, id, had);
    var (entered, k) := Enter(rows, q, w).value;
    NotItself(entered, k);
    forall i | 0 <= i < |rows|
      ensures Competes(entered, k, i) <==> Busy(rows, q, w, i)
      ensures Ahead(entered, k, i) <==> Queued(rows, q, w, created, id, i)
    {
      OthersAre(rows, q, w, created, id, had, i);
      QueuedIsOther(rows, q, w, created, id, had, i);
    }
  }

  /**
    Exactly when a request looks at memory it notes the peaks of the others on
    the device and raises the budgets they exceed; otherwise it leaves both alone.
   */
  lemma OthersAreMeasuredIff(rows: seq<Row>, q: Request, w: World, created: nat, id: nat, had: nat, i: nat)
    requires Unique(rows) && q.mode == Shared && ValidBudget(q) && CallerWaits(rows, q, w, created, id, had)
    requires i < |rows| && rows[i].owner != q.owner
    ensures Requested(rows, q, w).Ok? && i < |Requested(rows, q, w).value.0|
    ensures var after := Requested(rows, q, w).value.0[i];
            if Clear(rows, q, w, created, id) && q.checkMemory && w.sample.Some? && Busy(rows, q, w, i)
            then var used := ObservedBy(rows[i], w);
                 && after.peak == (if used > rows[i].peak then used else rows[i].peak)
                 && after.budget == if used > Budget(rows[i]) then Some(Entitled(rows[i], used)) else rows[i].budget
            else after.peak == rows[i].peak && after.budget == rows[i].budget
  {
    hide Enter, CallerWaits, Clear, Eligible, Busy, Queued, Competes, Admits, Requested, Observed;
    CallerEnters(rows, q, w, created, id, had);
    ClearIsEligible(rows, q, w, created, id, had);
    OthersAre(rows, q, w, created, id, had, i);
    RequestIsOk(rows, q, w);
    OtherRowIsSwept(rows, q, w, i);
    SweptIs(rows[i], q.device, w);
    if w.sample.Some? {
      var used := ObservedBy(rows[i], w);
      assert used * 11 / 10 == used + used / 10;
    }
  }

  lemma RequestIsOk(rows: seq<Row>, q: Request, w: World)
    requires Enter(rows, q, w).Ok?
    ensures Requested(rows, q, w).Ok?
  {
  }
}
