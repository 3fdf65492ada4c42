/**
  What one request does to the lease table, told from the rows before it and
  from what the system answers about their processes.
 */
module AdmissionAnswers {
  import opened Wrappers
  import opened Admission
  import opened AdmissionLaws

  /** The process number belongs to nobody, or to another process by now. */
  predicate Lost(r: Row, w: World) {
    var answer := w.processes(r.pid);
    answer == Gone || (answer.Alive? && answer.stamp != r.identity)
  }

  predicate Expired(r: Row, w: World) {
    r.status == Waiting && r.heartbeat + 300 < w.now
  }

  predicate Drops(r: Row, device: nat, w: World) {
    r.device == device && r.status != Released && (Expired(r, w) || Lost(r, w))
  }

  /** Nobody can say whether the process lives. */
  predicate Doubts(r: Row, device: nat, w: World) {
    r.device == device && r.status != Released && !Expired(r, w) && w.processes(r.pid) == Unknown
  }

  /** The row starts anew when its owner asks. */
  predicate Restarts(r: Row, device: nat, w: World) {
    r.status == Released || Drops(r, device, w)
  }

  lemma SweptIs(r: Row, device: nat, w: World)
    ensures Swept(r, device, w) ==
            if Drops(r, device, w) then r.(status := Released)
            else if Doubts(r, device, w) then r.(status := Conflict) else r
  {
  }

  // ---------------------------------------------------------------- other rows

  /** Everything of a row that no other owner's request may touch. */
  predicate Untouched(a: Row, b: Row) {
    && a.id == b.id && a.device == b.device && a.owner == b.owner && a.mode == b.mode
    && a.pid == b.pid && a.identity == b.identity && a.created == b.created && a.heartbeat == b.heartbeat
    && a.workload == b.workload && a.children == b.children
  }

  lemma OtherRowIsSwept(rows: seq<Row>, q: Request, w: World, i: nat)
    requires Requested(rows, q, w).Ok? && i < |rows| && rows[i].owner != q.owner
    ensures Enter(rows, q, w).Ok?
    ensures var (entered, k) := Enter(rows, q, w).value;
            var (after, _) := Requested(rows, q, w).value;
            && i != k && i < |entered| == |after| && entered[i] == Swept(rows[i], q.device, w)
            && after[i] == (if Measures(entered, k, q, w) && Competes(entered, k, i) then Measured(entered[i], w) else entered[i])
  {
    hide Swept;
    EnterShape(rows, q, w);
    var (entered, k) := Enter(rows, q, w).value;
    assert entered[k].owner == q.owner;
    OwnersStay(rows, q, w, i);
  }

  lemma OwnersStay(rows: seq<Row>, q: Request, w: World, i: nat)
    requires Enter(rows, q, w).Ok? && i < |rows|
    ensures i < |Enter(rows, q, w).value.0| && Enter(rows, q, w).value.0[i].owner == rows[i].owner
  {
    EnterShape(rows, q, w);
  }

  /**
    Which leases of others one request gives up, and which it puts in conflict:
    the answer about the process decides, and nothing else does.
   */
  lemma OtherRowAfter(rows: seq<Row>, q: Request, w: World, i: nat)
    requires Requested(rows, q, w).Ok? && i < |rows| && rows[i].owner != q.owner
    ensures var (after, _) := Requested(rows, q, w).value;
            && i < |after| && Untouched(rows[i], after[i])
            && (after[i].status == Released <==> Restarts(rows[i], q.device, w))
            && (after[i].status == Conflict <==>
                  Doubts(rows[i], q.device, w) || (rows[i].status == Conflict && !Drops(rows[i], q.device, w)))
            && (after[i].status in {Waiting, Active} ==> after[i].status == rows[i].status)
  {
    hide Measures, Enter, Competes;
    OtherRowIsSwept(rows, q, w, i);
    SweptIs(rows[i], q.device, w);
  }

  // ------------------------------------------------------------ the caller's row

  /** What a request asks of the row it finds or makes. */
  predicate Carries(r: Row, had: nat, q: Request) {
    r.workload == Some(q.workload) && r.budget.Some?
    && r.budget.value >= had && r.budget.value >= q.budget && r.budget.value >= q.floor
    && (r.budget.value == had || r.budget.value == q.budget || r.budget.value == q.floor)
  }

  function Had(r: Row): nat { if r.budget.Some? then r.budget.value else 0 }

  lemma CallerIsFound(rows: seq<Row>, q: Request, w: World, i: nat)
    requires Unique(rows) && i < |rows| && rows[i].owner == q.owner
    ensures Owned(Sweep(rows, q.device, w), q.owner) && Find(Sweep(rows, q.device, w), q.owner) == i
  {
    var swept := Sweep(rows, q.device, w);
    assert swept[i] == Swept(rows[i], q.device, w) && swept[i].owner == q.owner;
    var k := Find(swept, q.owner);
    assert swept[k] == Swept(rows[k], q.device, w);
    assert rows[k].owner == q.owner;
  }

  lemma NobodyIsFound(rows: seq<Row>, q: Request, w: World)
    requires forall i :: 0 <= i < |rows| ==> rows[i].owner != q.owner
    ensures !Owned(Sweep(rows, q.device, w), q.owner)
  {
    forall i | 0 <= i < |rows| ensures Sweep(rows, q.device, w)[i].owner != q.owner {
      assert Sweep(rows, q.device, w)[i] == Swept(rows[i], q.device, w);
    }
  }

  /** Each of the three refusals has its own cause. */
  lemma RefusedIff(rows: seq<Row>, q: Request, w: World, i: nat)
    requires Unique(rows) && i < |rows| && rows[i].owner == q.owner
    ensures var r := Requested(rows, q, w);
            && (r == Err(DeviceChanged) <==> rows[i].device != q.device)
            && (r == Err(RequestChanged) <==> rows[i].device == q.device && rows[i].mode != q.mode)
            && (r == Err(InvalidBudget) <==> rows[i].device == q.device && rows[i].mode == q.mode
                                             && q.mode == Shared && (q.budget <= 0 || q.reserve <= 0))
  {
    hide Measures, Admits, Measure, Budgeted, Swept;
    CallerIsFound(rows, q, w, i);
    SweptKeepsLease(rows[i], q.device, w);
    assert Sweep(rows, q.device, w)[i] == Swept(rows[i], q.device, w);
  }

  lemma SweptKeepsLease(r: Row, device: nat, w: World)
    ensures SameLease(r, Swept(r, device, w))
  {
  }

  lemma NewcomerRefusedIff(rows: seq<Row>, q: Request, w: World)
    requires forall i :: 0 <= i < |rows| ==> rows[i].owner != q.owner
    ensures Requested(rows, q, w).Err? <==> q.mode == Shared && (q.budget <= 0 || q.reserve <= 0)
    ensures Requested(rows, q, w).Err? ==> Requested(rows, q, w).error == InvalidBudget
  {
    NobodyIsFound(rows, q, w);
  }

  /** The row the caller already has: kept, doubted or started anew at the end of the queue. */
  lemma CallerRowAfter(rows: seq<Row>, q: Request, w: World, i: nat)
    requires Unique(rows) && Requested(rows, q, w).Ok? && i < |rows| && rows[i].owner == q.owner
    ensures var r := rows[i];
            var (after, granted) := Requested(rows, q, w).value;
            && |after| == |rows| && after[i].id == r.id && after[i].owner == r.owner
            && after[i].device == r.device == q.device && after[i].mode == r.mode == q.mode
            && after[i].heartbeat == w.now && after[i].children == r.children && after[i].peak == r.peak
            && granted == (if after[i].status == Active then Some(r.id) else None)
            && (if Restarts(r, q.device, w)
                then after[i].created == w.now && after[i].pid == q.pid && after[i].identity == q.identity
                     && after[i].status in {Waiting, Active}
                else after[i].created == r.created && after[i].pid == r.pid && after[i].identity == r.identity)
            && (Doubts(r, q.device, w) ==> after[i].status == Conflict)
            && (!Restarts(r, q.device, w) && !Doubts(r, q.device, w) ==>
                  after[i].status == r.status || (r.status == Waiting && after[i].status == Active))
            && (if q.mode == Shared then Carries(after[i], Had(r), q)
                else after[i].workload == r.workload && after[i].budget == r.budget)
  {
    hide Measures, Admits;
    CallerIsFound(rows, q, w, i);
    SweptIs(rows[i], q.device, w);
    assert Sweep(rows, q.device, w)[i] == Swept(rows[i], q.device, w);
  }

  /** A new caller gets a new row at the end of the queue. */
  lemma NewRowAfter(rows: seq<Row>, q: Request, w: World)
    requires Requested(rows, q, w).Ok? && forall i :: 0 <= i < |rows| ==> rows[i].owner != q.owner
    ensures var (after, granted) := Requested(rows, q, w).value;
            && |after| == |rows| + 1
            && var r := after[|rows|];
            && r.id == q.newId && r.owner == q.owner && r.device == q.device && r.mode == q.mode
            && r.created == r.heartbeat == w.now && r.pid == q.pid && r.identity == q.identity
            && r.status in {Waiting, Active} && r.children == [] && r.peak == 0
            && granted == (if r.status == Active then Some(q.newId) else None)
            && (if q.mode == Shared then Carries(r, 0, q) else r.workload == None && r.budget == None)
  {
    hide Measures, Admits;
    NobodyIsFound(rows, q, w);
  }

  // --------------------------------------------------------------- live holders

  /** The holder is not known to be gone. */
  predicate MayLive(r: Row, w: World) {
    var answer := w.processes(r.pid);
    answer != Gone && (answer.Alive? ==> answer.stamp == r.identity)
  }

  lemma LiveRowAfter(rows: seq<Row>, q: Request, w: World, i: nat)
    requires Unique(rows) && Requested(rows, q, w).Ok? && i < |rows|
    requires rows[i].status in {Active, Conflict} && MayLive(rows[i], w)
    ensures var (after, _) := Requested(rows, q, w).value;
            && i < |after| && after[i].id == rows[i].id && after[i].device == rows[i].device
            && after[i].status ==
                 (if rows[i].device == q.device && w.processes(rows[i].pid) == Unknown then Conflict else rows[i].status)
  {
    hide Requested;
    if rows[i].owner == q.owner {
      CallerRowAfter(rows, q, w, i);
    } else {
      OtherRowAfter(rows, q, w, i);
    }
  }

  /**
    After any history, no request takes a lease away from a holder that may
    live; while nobody can say whether it lives, the lease is in conflict.
   */
  lemma LiveHolderKeepsLease(ops: seq<Operation>, op: Operation, i: nat)
    requires History(ops + [op]) && op.Ask?
    requires i < |Replay(ops).rows| && HeldAt(Replay(ops), i) && MayLive(Replay(ops).rows[i], op.world)
    ensures var t, u := Replay(ops), Replay(ops + [op]);
            && i < |u.rows| && u.rows[i].id == t.rows[i].id && HeldAt(u, i)
            && (Requested(t.rows, op.request, op.world).Ok? ==>
                  u.rows[i].status == if t.rows[i].device == op.request.device && op.world.processes(t.rows[i].pid) == Unknown
                                      then Conflict else t.rows[i].status)
  {
    HistorySplits(ops, op);
    HistoryKeepsInv(ops);
    var t, q, w := Replay(ops), op.request, op.world;
    if Requested(t.rows, q, w).Ok? {
      LiveRowAfter(t.rows, q, w, i);
      AskKeepsInv(t, op);
      var (after, granted) := Requested(t.rows, q, w).value;
      StillHeldAt(after, if granted.Some? then t.held + {granted.value} else t.held, i);
    }
  }

  lemma ConflictAdmitsNobody(rows: seq<Row>, q: Request, w: World, i: nat)
    requires Unique(rows) && Requested(rows, q, w).Ok? && i < |rows| && Doubts(rows[i], q.device, w)
    ensures var (entered, k) := Enter(rows, q, w).value; !(entered[k].status == Waiting && Admits(entered, k, q, w))
  {
    RequestShape(rows, q, w);
    EnterShape(rows, q, w);
    var (entered, k) := Enter(rows, q, w).value;
    if i != k {
      assert entered[i] == Swept(rows[i], q.device, w);
      assert Competes(entered, k, i) && entered[i].status == Conflict;
    }
  }

  /**
    While one holder on the device cannot be asked about, nobody is given a
    lease there that was not held before.
   */
  lemma DoubtfulHolderBlocksGrants(ops: seq<Operation>, op: Operation, i: nat, j: nat)
    requires History(ops + [op]) && op.Ask? && Requested(Replay(ops).rows, op.request, op.world).Ok?
    requires i < |Replay(ops).rows| && HeldAt(Replay(ops), i) && Replay(ops).rows[i].device == op.request.device
    requires op.world.processes(Replay(ops).rows[i].pid) == Unknown
    requires j < |Replay(ops + [op]).rows| && HeldAt(Replay(ops + [op]), j)
    ensures j < |Replay(ops).rows| && HeldAt(Replay(ops), j)
  {
    HistorySplits(ops, op);
    HistoryKeepsInv(ops);
    ConflictAdmitsNobody(Replay(ops).rows, op.request, op.world, i);
    AskAnswers(Replay(ops), op);
  }

  // ------------------------------------------------------------ other operations

  /** The rows an operation is about: by number while they run, by number, or by owner. */
  predicate Names(op: Operation, r: Row)
    requires !op.Ask?
  {
    match op
    case Heartbeat(id, _, _) => r.id == id && r.status == Active
    case OutOfMemory(id) => r.id == id
    case Release(id) => r.id == id
    case ReleaseOwner(owner) => r.owner == owner
  }

  /** Rows an operation is not about stay; a release frees, a report of lack of memory raises the budget by half. */
  lemma RowAfterChange(rows: seq<Row>, op: Operation, i: nat)
    requires !op.Ask? && i < |rows|
    ensures var r, after := rows[i], After(rows, op)[i];
            && (!Names(op, r) ==> after == r)
            && after.id == r.id && after.owner == r.owner && after.device == r.device && after.mode == r.mode
            && after.created == r.created && after.pid == r.pid && after.workload == r.workload && after.peak == r.peak
            && (after.status == Released <==> r.status == Released || (Names(op, r) && (op.Release? || op.ReleaseOwner?)))
            && (after.status != Released ==> after.status == r.status)
            && (after.heartbeat == if Names(op, r) && op.Heartbeat? then op.now else r.heartbeat)
            && (after.children == if Names(op, r) && op.Heartbeat? && op.children.Some? then op.children.value else r.children)
            && (Names(op, r) && op.OutOfMemory? ==>
                  && after.budget.Some? && after.budget.value >= 1024
                  && 2 * after.budget.value + 1 >= 3 * Budget(r) && (after.budget.value > 1024 ==> 2 * after.budget.value <= 3 * Budget(r)))
            && (!op.OutOfMemory? ==> after.budget == r.budget)
  {
  }

  // ------------------------------------------------------------------ observations

  lemma {:induction false} ObservationsAdd(a: seq<Child>, b: seq<Child>, processes: nat -> Identity, memory: map<nat, nat>)
    ensures Observed(a + b, processes, memory) == Observed(a, processes, memory) + Observed(b, processes, memory)
  {
    if a == [] {
      assert a + b == b;
    } else {
      ObservationsAdd(a[1..], b, processes, memory);
      assert (a + b)[1..] == a[1..] + b;
    }
  }

  /** Memory counts for a lease only through a process that still is the one it was; what is unset counts as 1024. */
  lemma OnlyOwnProcessesCount(r: Row, w: World, child: Child)
    requires w.sample.Some?
    ensures var more := r.(children := r.children + [child]);
            ObservedBy(more, w) == ObservedBy(r, w) +
              if w.processes(child.pid) != Alive(child.identity) || child.pid !in w.sample.value.memory then 0
              else w.sample.value.memory[child.pid]
    ensures Budget(r) > 0 && (Had(r) == 0 ==> Budget(r) == 1024) && (Had(r) > 0 ==> Budget(r) == Had(r))
  {
    ObservationsAdd(r.children, [child], w.processes, w.sample.value.memory);
    assert [child][1..] == [];
  }
}
