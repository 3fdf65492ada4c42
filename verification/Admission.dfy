/**
  GPU admission: what one locked `request_lease` transaction does to the lease
  table, and what that guarantees. Memory is counted in MiB.
 */
module Admission {
  import opened Wrappers

  datatype Mode = Shared | ExclusiveTrain | ExclusiveCompression

  datatype Workload = Extract | Predict | Compression

  datatype Status = Waiting | Active | Conflict | Released

  /** A process of a lease holder, as its last heartbeat reported it. */
  datatype Child = Child(pid: nat, identity: nat)

  datatype Row = Row(
    id: nat, device: nat, mode: Mode, owner: nat, pid: nat, identity: nat,
    status: Status, created: nat, heartbeat: nat,
    budget: Option<nat>, workload: Option<Workload>, children: seq<Child>, peak: nat)

  /** What the operating system says about a process number. */
  datatype Identity = Gone | Alive(stamp: nat) | Unknown

  /** One driver sample: free memory, and memory by process. */
  datatype Sample = Sample(available: int, memory: map<nat, nat>)

  /** `sample` is `None` when the driver could not be queried. */
  datatype World = World(now: nat, processes: nat -> Identity, sample: Option<Sample>)

  /**
    `floor` is the largest budget past leases of the same profile ended with;
    `newId` the id a new row would get; `pid` and `identity` are the caller's.
   */
  datatype Request = Request(
    device: nat, mode: Mode, owner: nat, capacity: nat, checkMemory: bool,
    budget: int, reserve: int, workload: Workload, floor: nat,
    newId: nat, pid: nat, identity: nat)

  datatype Error = DeviceChanged | RequestChanged | InvalidBudget

  const EXPIRY := 300
  const DEFAULT_BUDGET := 1024

  function Max(a: int, b: int): int { if a < b then b else a }

  /** `memory_budget_mib or 1024`. */
  function Budget(r: Row): nat {
    if r.budget.Some? && r.budget.value != 0 then r.budget.value else DEFAULT_BUDGET
  }

  function WorkloadOf(r: Row): Workload {
    if r.workload.Some? then r.workload.value else Extract
  }

  /** `_observed`: memory of those children that are still the same process. */
  function Observed(children: seq<Child>, processes: nat -> Identity, memory: map<nat, nat>): nat {
    if children == [] then 0
    else
      var child := children[0];
      (if processes(child.pid) == Alive(child.identity) && child.pid in memory then memory[child.pid] else 0)
      + Observed(children[1..], processes, memory)
  }

  function ObservedBy(r: Row, w: World): nat
    requires w.sample.Some?
  {
    Observed(r.children, w.processes, w.sample.value.memory)
  }

  // ------------------------------------------------ the first pass: sweeping

  function Swept(r: Row, device: nat, w: World): Row {
    if r.device != device || r.status == Released then r
    else if r.status == Waiting && w.now - r.heartbeat > EXPIRY then r.(status := Released)
    else
      match w.processes(r.pid)
      case Unknown => r.(status := Conflict)
      case Gone => r.(status := Released)
      case Alive(stamp) => if stamp == r.identity then r else r.(status := Released)
  }

  function Sweep(rows: seq<Row>, device: nat, w: World): (swept: seq<Row>)
    ensures |swept| == |rows|
  {
    seq(|rows|, i requires 0 <= i < |rows| => Swept(rows[i], device, w))
  }

  // ------------------------------------------- the second: the caller's row

  predicate Owned(rows: seq<Row>, owner: nat) {
    exists i :: 0 <= i < |rows| && rows[i].owner == owner
  }

  function Find(rows: seq<Row>, owner: nat): (k: nat)
    requires Owned(rows, owner)
    ensures k < |rows| && rows[k].owner == owner
    ensures forall i :: 0 <= i < k ==> rows[i].owner != owner
  {
    if rows[0].owner == owner then 0
    else
      assert Owned(rows[1..], owner) by {
        var i :| 0 <= i < |rows| && rows[i].owner == owner;
        assert rows[1..][i - 1].owner == owner;
      }
      1 + Find(rows[1..], owner)
  }

  /** A new row, a revived one, or the row as the sweep left it. */
  function Entered(r: Row, q: Request, now: nat): Row {
    if r.status == Released
    then r.(status := Waiting, created := now, pid := q.pid, identity := q.identity)
    else r
  }

  function NewRow(q: Request, now: nat): Row {
    Row(q.newId, q.device, q.mode, q.owner, q.pid, q.identity, Waiting, now, now, None, None, [], 0)
  }

  /** The budget only ever grows, to the request or what the profile once needed. */
  function Budgeted(r: Row, q: Request): Row
    requires q.budget > 0
  {
    var asked: nat := Max(q.budget, q.floor);
    var had: nat := if r.budget.Some? then r.budget.value else 0;
    r.(workload := Some(q.workload), budget := Some(Max(had, asked)))
  }

  /** The table after the sweep with the caller's row in it, and where that row is. */
  function Enter(rows: seq<Row>, q: Request, w: World): (r: Result<(seq<Row>, nat), Error>)
    ensures r.Ok? ==> r.value.1 < |r.value.0| && |rows| <= |r.value.0|
  {
    var swept := Sweep(rows, q.device, w);
    var (table, k) :=
      if Owned(swept, q.owner) then
        var k := Find(swept, q.owner);
        (swept[k := Entered(swept[k], q, w.now)], k)
      else (swept + [NewRow(q, w.now)], |swept|);
    if table[k].device != q.device then Err(DeviceChanged)
    else if table[k].mode != q.mode then Err(RequestChanged)
    else if q.mode != Shared then Ok((table, k))
    else if q.budget <= 0 || q.reserve <= 0 then Err(InvalidBudget)
    else Ok((table[k := Budgeted(table[k], q)], k))
  }

  // ------------------------------------------------ the third: the decision

  predicate Before(a: Row, b: Row) {
    a.created < b.created || (a.created == b.created && a.id < b.id)
  }

  /** Another row of the device that is active or in conflict. */
  predicate Competes(rows: seq<Row>, k: nat, i: nat)
    requires k < |rows| && i < |rows|
  {
    i != k && rows[i].device == rows[k].device && rows[i].status in {Active, Conflict}
  }

  /** Another row of the device that waits ahead of row `k`. */
  predicate Ahead(rows: seq<Row>, k: nat, i: nat)
    requires k < |rows| && i < |rows|
  {
    rows[i].device == rows[k].device && rows[i].status == Waiting && Before(rows[i], rows[k])
  }

  function SameType(rows: seq<Row>, k: nat, n: nat, workload: Workload): nat
    requires k < |rows| && n <= |rows|
  {
    if n == 0 then 0
    else SameType(rows, k, n - 1, workload)
         + (if Competes(rows, k, n - 1) && WorkloadOf(rows[n - 1]) == workload then 1 else 0)
  }

  function Limit(q: Request): nat {
    match q.workload
    case Extract => q.capacity
    case Predict => 2
    case Compression => 1
  }

  /** The checks before memory is looked at. */
  predicate Eligible(rows: seq<Row>, k: nat, q: Request)
    requires k < |rows|
  {
    && (forall i :: 0 <= i < |rows| && Competes(rows, k, i) ==> rows[i].status == Active && rows[i].mode == Shared)
    && (forall i :: 0 <= i < |rows| && Ahead(rows, k, i) ==> rows[i].mode == Shared)
    && SameType(rows, k, |rows|, q.workload) < Limit(q)
  }

  /** A measured lease has its peak noted and an exceeded budget raised. */
  function Measured(r: Row, w: World): (m: Row)
    requires w.sample.Some?
  {
    var observed := ObservedBy(r, w);
    r.(peak := Max(r.peak, observed),
       budget := if observed > Budget(r) then Some(observed * 11 / 10 + 1) else r.budget)
  }

  function Measure(rows: seq<Row>, k: nat, w: World): (measured: seq<Row>)
    requires k < |rows| && w.sample.Some?
    ensures |measured| == |rows| && measured[k] == rows[k]
  {
    seq(|rows|, i requires 0 <= i < |rows| => if Competes(rows, k, i) then Measured(rows[i], w) else rows[i])
  }

  /** What the first `n` rows may still claim beyond what they were seen to use. */
  function Pending(rows: seq<Row>, k: nat, w: World, n: nat): nat
    requires k < |rows| && n <= |rows| && w.sample.Some?
  {
    if n == 0 then 0
    else Pending(rows, k, w, n - 1)
         + (if Competes(rows, k, n - 1) then Max(0, Budget(Measured(rows[n - 1], w)) - ObservedBy(rows[n - 1], w)) else 0)
  }

  predicate EncoderAhead(rows: seq<Row>, k: nat, i: nat)
    requires k < |rows| && i < |rows|
  {
    Ahead(rows, k, i) && rows[i].mode == Shared && rows[i].workload == Some(Compression)
  }

  predicate EncoderActive(rows: seq<Row>, k: nat)
    requires k < |rows|
  {
    exists i :: 0 <= i < |rows| && Competes(rows, k, i) && rows[i].mode == Shared && rows[i].workload == Some(Compression)
  }

  /** The oldest of the encoders among the first `n` rows that wait ahead of row `k`. */
  function OldestEncoder(rows: seq<Row>, k: nat, n: nat): (e: Option<nat>)
    requires k < |rows| && n <= |rows|
    ensures e.Some? ==> e.value < n && EncoderAhead(rows, k, e.value)
    ensures e == None ==> forall i :: 0 <= i < n ==> !EncoderAhead(rows, k, i)
    ensures e.Some? ==> forall i :: 0 <= i < n && EncoderAhead(rows, k, i) ==> !Before(rows[i], rows[e.value])
  {
    if n == 0 then None
    else
      var e := OldestEncoder(rows, k, n - 1);
      if EncoderAhead(rows, k, n - 1) && (e == None || Before(rows[n - 1], rows[e.value])) then Some(n - 1) else e
  }

  function Earmark(rows: seq<Row>, k: nat, q: Request): nat
    requires k < |rows|
  {
    var e := OldestEncoder(rows, k, |rows|);
    if q.workload != Compression && e.Some? && !EncoderActive(rows, k) then Budget(rows[e.value]) else 0
  }

  predicate Fits(rows: seq<Row>, k: nat, q: Request, w: World)
    requires k < |rows| && w.sample.Some?
  {
    w.sample.value.available - Pending(rows, k, w, |rows|) - Earmark(rows, k, q) >= Budget(rows[k]) + q.reserve
  }

  /** Whether a waiting row is admitted. */
  predicate Admits(rows: seq<Row>, k: nat, q: Request, w: World)
    requires k < |rows|
  {
    if q.mode == Shared then
      Eligible(rows, k, q) && (q.checkMemory ==> w.sample.Some? && Fits(rows, k, q, w))
    else
      && (forall i :: 0 <= i < |rows| ==> !Competes(rows, k, i))
      && (forall i :: 0 <= i < |rows| ==> !Ahead(rows, k, i))
  }

  predicate Measures(rows: seq<Row>, k: nat, q: Request, w: World)
    requires k < |rows|
  {
    rows[k].status == Waiting && q.mode == Shared && q.checkMemory && Eligible(rows, k, q) && w.sample.Some?
  }

  /** The whole transaction: the table it commits, and the lease it grants. */
  function Requested(rows: seq<Row>, q: Request, w: World): (r: Result<(seq<Row>, Option<nat>), Error>) {
    match Enter(rows, q, w)
    case Err(error) => Err(error)
    case Ok((entered, k)) =>
      var admitted := entered[k].status == Active || (entered[k].status == Waiting && Admits(entered, k, q, w));
      var measured := if Measures(entered, k, q, w) then Measure(entered, k, w) else entered;
      var row := measured[k].(heartbeat := w.now, status := if admitted then Active else measured[k].status);
      Ok((measured[k := row], if admitted then Some(row.id) else None))
  }
}
