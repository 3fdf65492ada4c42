/**
  What holds of the lease table over every history of requests, heartbeats,
  releases and out-of-memory reports.
 */
module AdmissionLaws {
  import opened Wrappers
  import opened Admission

  /** `held` are the leases that were granted and not released since. */
  datatype Table = Table(rows: seq<Row>, held: set<nat>)

  datatype Operation =
    | Ask(request: Request, world: World)
    | Heartbeat(id: nat, now: nat, children: Option<seq<Child>>)
    | OutOfMemory(id: nat)
    | Release(id: nat)
    | ReleaseOwner(owner: nat)

  // ------------------------------------------------------------ operations

  function Beaten(r: Row, op: Operation): Row
    requires op.Heartbeat?
  {
    if r.id == op.id && r.status == Active
    then r.(heartbeat := op.now, children := if op.children.Some? then op.children.value else r.children)
    else r
  }

  /** `record_oom` raises the budget by half. */
  function Exhausted(r: Row, op: Operation): Row
    requires op.OutOfMemory?
  {
    if r.id == op.id then r.(budget := Some(Max(1024, Budget(r) * 3 / 2))) else r
  }

  function Changed(r: Row, op: Operation): Row
    requires !op.Ask?
  {
    match op
    case Heartbeat(_, _, _) => Beaten(r, op)
    case OutOfMemory(_) => Exhausted(r, op)
    case Release(id) => if r.id == id then r.(status := Released) else r
    case ReleaseOwner(owner) => if r.owner == owner then r.(status := Released) else r
  }

  function After(rows: seq<Row>, op: Operation): (after: seq<Row>)
    requires !op.Ask?
    ensures |after| == |rows|
  {
    seq(|rows|, i requires 0 <= i < |rows| => Changed(rows[i], op))
  }

  function StillHeld(rows: seq<Row>, held: set<nat>): set<nat> {
    set i | 0 <= i < |rows| && rows[i].id in held && rows[i].status in {Active, Conflict} :: rows[i].id
  }

  /** A refused request leaves nothing behind: its transaction is rolled back. */
  function Apply(t: Table, op: Operation): Table {
    if op.Ask? then
      match Requested(t.rows, op.request, op.world)
      case Err(_) => t
      case Ok((rows, granted)) =>
        var held := if granted.Some? then t.held + {granted.value} else t.held;
        Table(rows, StillHeld(rows, held))
    else
      var rows := After(t.rows, op);
      Table(rows, StillHeld(rows, t.held))
  }

  function Replay(ops: seq<Operation>): Table {
    if ops == [] then Table([], {}) else Apply(Replay(ops[..|ops| - 1]), ops[|ops| - 1])
  }

  // -------------------------------------------------------------- exclusion

  predicate HeldAt(t: Table, i: nat)
    requires i < |t.rows|
  {
    t.rows[i].id in t.held
  }

  predicate Unique(rows: seq<Row>) {
    forall i, j :: 0 <= i < j < |rows| ==> rows[i].id != rows[j].id && rows[i].owner != rows[j].owner
  }

  /** No held lease is exclusive while another one is held on its device. */
  predicate Exclusive(t: Table) {
    forall i, j :: 0 <= i < j < |t.rows| && t.rows[i].device == t.rows[j].device ==>
      HeldAt(t, i) && HeldAt(t, j) ==> t.rows[i].mode == Shared && t.rows[j].mode == Shared
  }

  predicate Inv(t: Table) {
    && Unique(t.rows)
    && (forall i :: 0 <= i < |t.rows| ==> t.rows[i].status == Active ==> HeldAt(t, i))
    && (forall i :: 0 <= i < |t.rows| && HeldAt(t, i) ==> t.rows[i].status in {Active, Conflict})
    && Exclusive(t)
  }

  /** Row identifiers are never issued twice. */
  predicate FreshId(t: Table, op: Operation) {
    op.Ask? ==> forall i :: 0 <= i < |t.rows| ==> t.rows[i].id != op.request.newId
  }

  predicate SameLease(a: Row, b: Row) {
    a.id == b.id && a.device == b.device && a.owner == b.owner && a.mode == b.mode
  }

  /** How the caller's row relates to what the sweep left of it. */
  predicate EnteredFrom(swept: Row, r: Row) {
    && SameLease(swept, r)
    && r.status == if swept.status == Released then Waiting else swept.status
  }

  lemma EnterShape(rows: seq<Row>, q: Request, w: World)
    requires Enter(rows, q, w).Ok?
    ensures var (table, k) := Enter(rows, q, w).value;
            && table[k].mode == q.mode && table[k].device == q.device && table[k].owner == q.owner
            && |table| == (if k < |rows| then |rows| else |rows| + 1)
            && (forall i :: 0 <= i < |rows| && i != k ==> table[i] == Swept(rows[i], q.device, w))
            && (k < |rows| ==> EnteredFrom(Swept(rows[k], q.device, w), table[k]))
            && (k == |rows| ==> table[k].id == q.newId && table[k].status == Waiting)
            && (k == |rows| ==> forall i :: 0 <= i < |rows| ==> rows[i].owner != q.owner)
  {
    var swept := Sweep(rows, q.device, w);
    assert forall i :: 0 <= i < |rows| ==> swept[i] == Swept(rows[i], q.device, w);
    if !Owned(swept, q.owner) {
      forall i | 0 <= i < |rows| ensures rows[i].owner != q.owner {
        assert swept[i].owner == rows[i].owner;
      }
    }
  }

  /** Everything but the caller's row keeps its status; that one may become active. */
  lemma RequestShape(rows: seq<Row>, q: Request, w: World)
    requires Requested(rows, q, w).Ok?
    ensures Enter(rows, q, w).Ok?
    ensures var (entered, k) := Enter(rows, q, w).value;
            var (after, granted) := Requested(rows, q, w).value;
            && |after| == |entered|
            && (forall i :: 0 <= i < |after| ==> SameLease(entered[i], after[i]))
            && (forall i :: 0 <= i < |after| && i != k ==> after[i].status == entered[i].status)
            && (granted.Some? ==> granted.value == after[k].id && after[k].status == Active)
            && (granted == None ==> after[k].status == entered[k].status && entered[k].status != Active)
            && (granted.Some? && entered[k].status != Active ==>
                  entered[k].status == Waiting && Admits(entered, k, q, w))
  {
  }

  lemma UniqueAfter(rows: seq<Row>, after: seq<Row>, k: nat, q: Request)
    requires Unique(rows) && k < |after| && |after| == (if k < |rows| then |rows| else |rows| + 1)
    requires forall i :: 0 <= i < |rows| ==> SameLease(rows[i], after[i])
    requires forall i :: 0 <= i < |rows| ==> rows[i].id != q.newId
    requires k == |rows| ==> after[k].id == q.newId && after[k].owner == q.owner
                             && forall i :: 0 <= i < |rows| ==> rows[i].owner != q.owner
    ensures Unique(after)
  {
    forall i, j | 0 <= i < j < |after| ensures after[i].id != after[j].id && after[i].owner != after[j].owner {
      assert SameLease(rows[i], after[i]);
      if j < |rows| {
        assert SameLease(rows[j], after[j]);
      }
    }
  }

  /** Row `i` counts as held after an operation exactly when its own status and history say so. */
  lemma StillHeldAt(rows: seq<Row>, held: set<nat>, i: nat)
    requires Unique(rows) && i < |rows|
    ensures HeldAt(Table(rows, StillHeld(rows, held)), i) <==> rows[i].id in held && rows[i].status in {Active, Conflict}
  {
  }

  /** What a granted request did to the table, in terms of the table before it. */
  predicate Answered(t: Table, u: Table, k: nat, newly: bool) {
    && k < |u.rows| && |u.rows| == (if k < |t.rows| then |t.rows| else |t.rows| + 1)
    && Unique(u.rows)
    && (forall i :: 0 <= i < |t.rows| ==> SameLease(t.rows[i], u.rows[i]))
    && (forall i :: 0 <= i < |u.rows| ==> u.rows[i].status == Active ==> HeldAt(u, i))
    && (forall i :: 0 <= i < |u.rows| && HeldAt(u, i) ==> u.rows[i].status in {Active, Conflict})
    && (forall i :: 0 <= i < |u.rows| && HeldAt(u, i) ==> (i == k && newly) || (i < |t.rows| && HeldAt(t, i)))
  }

  /** The rows of a granted request, without saying how they were decided. */
  predicate Advanced(rows: seq<Row>, after: seq<Row>, k: nat, granted: Option<nat>, newly: bool) {
    && k < |after| && |after| == (if k < |rows| then |rows| else |rows| + 1)
    && (forall i :: 0 <= i < |rows| ==> SameLease(rows[i], after[i]))
    && (forall i :: 0 <= i < |rows| && after[i].status == Active && (i != k || !newly) ==> rows[i].status == Active)
    && (k == |rows| && !newly ==> after[k].status == Waiting)
    && granted == (if after[k].status == Active then Some(after[k].id) else None)
    && (newly ==> after[k].status == Active)
  }

  lemma OtherRowAdvances(rows: seq<Row>, q: Request, w: World, i: nat)
    requires Requested(rows, q, w).Ok? && i < |rows|
    ensures var k := Enter(rows, q, w).value.1;
            var (after, _) := Requested(rows, q, w).value;
            i < |after| && SameLease(rows[i], after[i]) && (i != k && after[i].status == Active ==> rows[i].status == Active)
  {
    RequestShape(rows, q, w);
    EnterShape(rows, q, w);
    var (entered, k) := Enter(rows, q, w).value;
    var (after, _) := Requested(rows, q, w).value;
    assert SameLease(entered[i], after[i]);
  }

  lemma OwnRowAdvances(rows: seq<Row>, q: Request, w: World)
    requires Requested(rows, q, w).Ok?
    ensures var (entered, k) := Enter(rows, q, w).value;
            var (after, granted) := Requested(rows, q, w).value;
            var newly := entered[k].status == Waiting && Admits(entered, k, q, w);
            && k < |after| && |after| == (if k < |rows| then |rows| else |rows| + 1)
            && (k < |rows| && after[k].status == Active && !newly ==> rows[k].status == Active)
            && (k == |rows| && !newly ==> after[k].status == Waiting)
            && granted == (if after[k].status == Active then Some(after[k].id) else None)
            && (newly ==> after[k].status == Active)
  {
    RequestShape(rows, q, w);
    EnterShape(rows, q, w);
  }

  lemma RequestAdvances(rows: seq<Row>, q: Request, w: World)
    requires Requested(rows, q, w).Ok?
    ensures var (entered, k) := Enter(rows, q, w).value;
            var (after, granted) := Requested(rows, q, w).value;
            Advanced(rows, after, k, granted, entered[k].status == Waiting && Admits(entered, k, q, w))
  {
    OwnRowAdvances(rows, q, w);
    var k := Enter(rows, q, w).value.1;
    var (after, _) := Requested(rows, q, w).value;
    forall i | 0 <= i < |rows|
      ensures SameLease(rows[i], after[i])
      ensures i != k && after[i].status == Active ==> rows[i].status == Active
    {
      OtherRowAdvances(rows, q, w, i);
    }
  }

  lemma AdvancedAnswers(t: Table, u: Table, k: nat, granted: Option<nat>, newly: bool)
    requires Inv(t) && Advanced(t.rows, u.rows, k, granted, newly) && Unique(u.rows)
    requires u.held == StillHeld(u.rows, if granted.Some? then t.held + {granted.value} else t.held)
    ensures Answered(t, u, k, newly)
  {
    forall i | 0 <= i < |u.rows|
      ensures HeldAt(u, i) <==>
                u.rows[i].status in {Active, Conflict} && (u.rows[i].id in t.held || granted == Some(u.rows[i].id))
    {
      StillHeldAt(u.rows, if granted.Some? then t.held + {granted.value} else t.held, i);
    }
    forall i | 0 <= i < |t.rows| ensures SameLease(t.rows[i], u.rows[i]) {
    }
  }

  lemma AskAnswers(t: Table, op: Operation)
    requires Inv(t) && op.Ask? && FreshId(t, op) && Requested(t.rows, op.request, op.world).Ok?
    ensures var (entered, k) := Enter(t.rows, op.request, op.world).value;
            Answered(t, Apply(t, op), k, entered[k].status == Waiting && Admits(entered, k, op.request, op.world))
  {
    var q, w := op.request, op.world;
    var (entered, k) := Enter(t.rows, q, w).value;
    var (after, granted) := Requested(t.rows, q, w).value;
    RequestAdvances(t.rows, q, w);
    RequestIdentity(t.rows, q, w);
    UniqueAfter(t.rows, after, k, q);
    AdvancedAnswers(t, Apply(t, op), k, granted, entered[k].status == Waiting && Admits(entered, k, q, w));
  }

  lemma RequestIdentity(rows: seq<Row>, q: Request, w: World)
    requires Requested(rows, q, w).Ok?
    ensures var (_, k) := Enter(rows, q, w).value;
            var (after, _) := Requested(rows, q, w).value;
            k < |after| && (k == |rows| ==>
              after[k].id == q.newId && after[k].owner == q.owner && forall i :: 0 <= i < |rows| ==> rows[i].owner != q.owner)
  {
    RequestShape(rows, q, w);
    EnterShape(rows, q, w);
    var (entered, k) := Enter(rows, q, w).value;
    var (after, _) := Requested(rows, q, w).value;
    assert SameLease(entered[k], after[k]);
  }

  /** A lease is newly granted only while every other held one of its device is shared, like itself. */
  lemma GrantedBeside(t: Table, op: Operation, i: nat)
    requires op.Ask? && Requested(t.rows, op.request, op.world).Ok?
    requires var (entered, k) := Enter(t.rows, op.request, op.world).value;
             var (after, _) := Requested(t.rows, op.request, op.world).value;
             && i < |after| && i != k && after[i].status in {Active, Conflict} && after[i].device == after[k].device
             && entered[k].status == Waiting && Admits(entered, k, op.request, op.world)
    ensures var (_, k) := Enter(t.rows, op.request, op.world).value;
            var (after, _) := Requested(t.rows, op.request, op.world).value;
            after[i].mode == Shared && after[k].mode == Shared
  {
    RequestShape(t.rows, op.request, op.world);
    EnterShape(t.rows, op.request, op.world);
    var (entered, k) := Enter(t.rows, op.request, op.world).value;
    var (after, _) := Requested(t.rows, op.request, op.world).value;
    assert SameLease(entered[i], after[i]) && SameLease(entered[k], after[k]);
    assert Competes(entered, k, i);
  }

  lemma AskKeepsInv(t: Table, op: Operation)
    requires Inv(t) && op.Ask? && FreshId(t, op)
    ensures Inv(Apply(t, op))
  {
    if Requested(t.rows, op.request, op.world).Ok? {
      AskAnswers(t, op);
      var u := Apply(t, op);
      var (_, k) := Enter(t.rows, op.request, op.world).value;
      forall i, j | 0 <= i < j < |u.rows| && u.rows[i].device == u.rows[j].device && HeldAt(u, i) && HeldAt(u, j)
        ensures u.rows[i].mode == Shared && u.rows[j].mode == Shared
      {
        assert i < |t.rows| && SameLease(t.rows[i], u.rows[i]);
        if j < |t.rows| && HeldAt(t, i) && HeldAt(t, j) {
          assert SameLease(t.rows[j], u.rows[j]);
        } else {
          GrantedBeside(t, op, if i == k then j else i);
        }
      }
    }
  }

  lemma OtherKeepsInv(t: Table, op: Operation)
    requires Inv(t) && !op.Ask?
    ensures Inv(Apply(t, op))
  {
    var after := After(t.rows, op);
    forall i | 0 <= i < |after|
      ensures SameLease(t.rows[i], after[i])
      ensures after[i].status in {t.rows[i].status, Released}
    {
      assert after[i] == Changed(t.rows[i], op);
    }
    assert Unique(after) by {
      forall i, j | 0 <= i < j < |after| ensures after[i].id != after[j].id && after[i].owner != after[j].owner {
        assert SameLease(t.rows[i], after[i]) && SameLease(t.rows[j], after[j]);
      }
    }
    forall i | 0 <= i < |after|
      ensures HeldAt(Apply(t, op), i) <==> HeldAt(t, i) && after[i].status in {Active, Conflict}
    {
      StillHeldAt(after, t.held, i);
    }
  }

  /** A history whose new rows always get new ids. */
  predicate History(ops: seq<Operation>) {
    forall n :: 0 <= n < |ops| ==> FreshId(Replay(ops[..n]), ops[n])
  }

  lemma HistorySplits(ops: seq<Operation>, op: Operation)
    requires History(ops + [op])
    ensures History(ops) && FreshId(Replay(ops), op) && Replay(ops + [op]) == Apply(Replay(ops), op)
  {
    var all := ops + [op];
    assert all[..|ops|] == ops && FreshId(Replay(all[..|ops|]), all[|ops|]);
    forall n | 0 <= n < |ops| ensures FreshId(Replay(ops[..n]), ops[n]) {
      assert all[..n] == ops[..n] && all[n] == ops[n];
      assert FreshId(Replay(all[..n]), all[n]);
    }
  }

  lemma {:induction false} HistoryKeepsInv(ops: seq<Operation>)
    requires History(ops)
    ensures Inv(Replay(ops))
  {
    if ops != [] {
      var before, op := ops[..|ops| - 1], ops[|ops| - 1];
      assert ops == before + [op];
      HistorySplits(before, op);
      HistoryKeepsInv(before);
      if op.Ask? {
        AskKeepsInv(Replay(before), op);
      } else {
        OtherKeepsInv(Replay(before), op);
      }
    }
  }

  /** Whatever the history, an exclusive lease is never held beside another one. */
  lemma ExclusiveLeaseIsAlone(ops: seq<Operation>, i: nat, j: nat)
    requires History(ops)
    requires i < |Replay(ops).rows| && j < |Replay(ops).rows| && i != j
    requires Replay(ops).rows[i].device == Replay(ops).rows[j].device
    requires HeldAt(Replay(ops), i) && Replay(ops).rows[i].mode != Shared
    ensures !HeldAt(Replay(ops), j)
  {
    HistoryKeepsInv(ops);
  }
}
