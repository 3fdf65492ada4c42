/** How many leases of one workload are held at a time. */
module AdmissionCapacity {
  import opened Wrappers
  import opened Admission
  import opened AdmissionLaws
  import opened AdmissionMemory

  predicate Counts(t: Table, device: nat, x: Workload, i: nat)
    requires i < |t.rows|
  {
    HeldAt(t, i) && t.rows[i].device == device && t.rows[i].mode == Shared && WorkloadOf(t.rows[i]) == x
  }

  /** Shared leases of a workload that are held on a device, row `except` not counted. */
  function HeldOf(t: Table, device: nat, x: Workload, except: int, n: nat): nat
    requires n <= |t.rows|
  {
    if n == 0 then 0
    else HeldOf(t, device, x, except, n - 1) + (if n - 1 != except && Counts(t, device, x, n - 1) then 1 else 0)
  }

  function Held(t: Table, device: nat, x: Workload): nat {
    HeldOf(t, device, x, -1, |t.rows|)
  }

  function Others(t: Table, k: nat, device: nat, x: Workload): nat {
    HeldOf(t, device, x, k, |t.rows|)
  }

  lemma {:induction false} OneMore(t: Table, device: nat, x: Workload, k: nat, n: nat)
    requires n <= |t.rows| && k < |t.rows|
    ensures HeldOf(t, device, x, -1, n) == HeldOf(t, device, x, k, n) + (if k < n && Counts(t, device, x, k) then 1 else 0)
  {
    if n > 0 {
      OneMore(t, device, x, k, n - 1);
    }
  }

  lemma {:induction false} Fewer(t: Table, u: Table, device: nat, x: Workload, except: int, n: nat, m: nat)
    requires n <= |u.rows| && m <= |t.rows| && m <= n
    requires forall i :: 0 <= i < n && i != except && Counts(u, device, x, i) ==> i < m && Counts(t, device, x, i)
    ensures HeldOf(u, device, x, except, n) <= HeldOf(t, device, x, -1, m)
    decreases n
  {
    if n > m {
      Fewer(t, u, device, x, except, n - 1, m);
    } else if n > 0 {
      Fewer(t, u, device, x, except, n - 1, m - 1);
    }
  }

  lemma {:induction false} CountedByType(u: Table, rows: seq<Row>, k: nat, x: Workload, n: nat)
    requires k < |rows| == |u.rows| && n <= |rows|
    requires forall i :: 0 <= i < n && i != k && Counts(u, rows[k].device, x, i) ==>
               Competes(rows, k, i) && WorkloadOf(rows[i]) == x
    ensures HeldOf(u, rows[k].device, x, k, n) <= SameType(rows, k, n, x)
  {
    if n > 0 {
      CountedByType(u, rows, k, x, n - 1);
    }
  }

  /** What an answered request changes about the other rows: they may stop counting, never start. */
  lemma OthersCounted(t: Table, op: Operation, device: nat, x: Workload, i: nat)
    requires Inv(t) && op.Ask? && FreshId(t, op) && Requested(t.rows, op.request, op.world).Ok?
    requires i < |Apply(t, op).rows| && i != Enter(t.rows, op.request, op.world).value.1
    ensures Counts(Apply(t, op), device, x, i) ==>
              && i < |t.rows| && Counts(t, device, x, i)
              && var (entered, k) := Enter(t.rows, op.request, op.world).value;
                 i < |entered| && entered[i].status == Apply(t, op).rows[i].status && WorkloadOf(entered[i]) == x
  {
    AskAnswers(t, op);
    RequestShape(t.rows, op.request, op.world);
    EnterShape(t.rows, op.request, op.world);
    var u := Apply(t, op);
    if Counts(u, device, x, i) {
      assert i < |t.rows| && HeldAt(t, i) && SameLease(t.rows[i], u.rows[i]);
      OthersKeepWorkload(t.rows, op.request, op.world, i);
    }
  }

  lemma OthersKeepWorkload(rows: seq<Row>, q: Request, w: World, i: nat)
    requires Requested(rows, q, w).Ok? && i < |rows| && i != Enter(rows, q, w).value.1
    ensures var (entered, k) := Enter(rows, q, w).value;
            var (after, _) := Requested(rows, q, w).value;
            && i < |entered| && i < |after|
            && after[i].workload == entered[i].workload == rows[i].workload
  {
    EnterShape(rows, q, w);
  }

  /** A new grant never takes the count of its workload past the caller's limit. */
  lemma NewGrantWithinLimit(t: Table, op: Operation)
    requires Inv(t) && op.Ask? && FreshId(t, op) && op.request.mode == Shared
    requires Requested(t.rows, op.request, op.world).Ok?
    requires var (entered, k) := Enter(t.rows, op.request, op.world).value;
             entered[k].status == Waiting && Admits(entered, k, op.request, op.world)
    ensures var (_, k) := Enter(t.rows, op.request, op.world).value;
            Others(Apply(t, op), k, op.request.device, op.request.workload) < Limit(op.request)
  {
    var q := op.request;
    var (entered, k) := Enter(t.rows, q, op.world).value;
    var u := Apply(t, op);
    RequestShape(t.rows, q, op.world);
    EnterDevice(t.rows, q, op.world);
    forall i | 0 <= i < |u.rows| && i != k && Counts(u, q.device, q.workload, i)
      ensures Competes(entered, k, i) && WorkloadOf(entered[i]) == q.workload
    {
      OthersCounted(t, op, q.device, q.workload, i);
      AskKeepsInv(t, op);
      assert SameLease(entered[i], u.rows[i]);
    }
    CountedByType(u, entered, k, q.workload, |u.rows|);
  }

  lemma OthersNotMore(t: Table, op: Operation, device: nat, x: Workload)
    requires Inv(t) && op.Ask? && FreshId(t, op) && Requested(t.rows, op.request, op.world).Ok?
    ensures Others(Apply(t, op), Enter(t.rows, op.request, op.world).value.1, device, x) <= Held(t, device, x)
  {
    var u := Apply(t, op);
    var k := Enter(t.rows, op.request, op.world).value.1;
    RequestShape(t.rows, op.request, op.world);
    EnterShape(t.rows, op.request, op.world);
    forall i | 0 <= i < |u.rows| && i != k && Counts(u, device, x, i) ensures i < |t.rows| && Counts(t, device, x, i) {
      OthersCounted(t, op, device, x, i);
    }
    Fewer(t, u, device, x, k, |u.rows|, |t.rows|);
  }

  // --------------------------------------------- what a caller can look up first

  /** The table as the sweep that opens a request leaves it. */
  function SweptTable(t: Table, device: nat, w: World): Table {
    var rows := Sweep(t.rows, device, w);
    Table(rows, StillHeld(rows, t.held))
  }

  /** The caller holds row `k`, and its new workload is full without that row. */
  predicate Moves(s: Table, k: nat, q: Request, limit: nat)
    requires k < |s.rows|
  {
    && s.rows[k].owner == q.owner && s.rows[k].device == q.device && s.rows[k].mode == Shared
    && HeldAt(s, k) && Others(s, k, q.device, q.workload) >= limit
  }

  /** A request for a lease its owner still holds, for work that is full without it; known before it is made. */
  predicate Overfills(t: Table, q: Request, w: World, limit: nat) {
    && q.mode == Shared && q.budget > 0 && q.reserve > 0
    && var s := SweptTable(t, q.device, w);
       exists k :: 0 <= k < |s.rows| && Moves(s, k, q, limit)
  }

  lemma SweptIsUnique(t: Table, device: nat, w: World)
    requires Unique(t.rows)
    ensures Unique(SweptTable(t, device, w).rows)
  {
    var s := SweptTable(t, device, w);
    forall i, j | 0 <= i < j < |s.rows| ensures s.rows[i].id != s.rows[j].id && s.rows[i].owner != s.rows[j].owner {
      assert s.rows[i] == Swept(t.rows[i], device, w) && s.rows[j] == Swept(t.rows[j], device, w);
    }
  }

  lemma SweptHeld(t: Table, device: nat, w: World, i: nat)
    requires Unique(t.rows) && i < |t.rows|
    ensures var s := SweptTable(t, device, w);
            && s.rows[i] == Swept(t.rows[i], device, w)
            && (HeldAt(s, i) <==> HeldAt(t, i) && s.rows[i].status in {Active, Conflict})
  {
    SweptIsUnique(t, device, w);
    StillHeldAt(Sweep(t.rows, device, w), t.held, i);
  }

  /** The caller's row is the only one of its owner. */
  lemma CallerIs(rows: seq<Row>, q: Request, w: World, k: nat)
    requires Unique(rows) && k < |rows| && rows[k].owner == q.owner && Enter(rows, q, w).Ok?
    ensures Enter(rows, q, w).value.1 == k
  {
    EnterShape(rows, q, w);
    var j := Enter(rows, q, w).value.1;
    assert j < |rows| && rows[j].owner == q.owner;
  }

  /** Such a request is answered, since nothing about it is refused. */
  lemma OverfillIsAnswered(t: Table, q: Request, w: World, limit: nat, k: nat)
    requires Unique(t.rows) && q.mode == Shared && q.budget > 0 && q.reserve > 0
    requires k < |t.rows| && Moves(SweptTable(t, q.device, w), k, q, limit)
    ensures Requested(t.rows, q, w).Ok? && Enter(t.rows, q, w).value.1 == k
  {
    var swept := Sweep(t.rows, q.device, w);
    SweptIsUnique(t, q.device, w);
    assert swept[k].owner == q.owner;
    assert Owned(swept, q.owner);
    var j := Find(swept, q.owner);
    assert j == k;
  }

  /** The other rows count after a request exactly as the sweep left them. */
  lemma OthersAsSwept(t: Table, op: Operation, device: nat, x: Workload, i: nat)
    requires Inv(t) && op.Ask? && FreshId(t, op) && Requested(t.rows, op.request, op.world).Ok?
    requires i < |t.rows| && i != Enter(t.rows, op.request, op.world).value.1
    ensures i < |Apply(t, op).rows|
    ensures Counts(Apply(t, op), device, x, i) <==> Counts(SweptTable(t, op.request.device, op.world), device, x, i)
  {
    hide Admits, Measures, Measure, Enter;
    var q, w, u := op.request, op.world, Apply(t, op);
    AskAnswers(t, op);
    RequestShape(t.rows, q, w);
    EnterShape(t.rows, q, w);
    OthersKeepWorkload(t.rows, q, w, i);
    SweptHeld(t, q.device, w, i);
    var (_, granted) := Requested(t.rows, q, w).value;
    StillHeldAt(u.rows, if granted.Some? then t.held + {granted.value} else t.held, i);
    assert SameLease(t.rows[i], u.rows[i]);
  }

  lemma {:induction false} SameOthers(a: Table, b: Table, device: nat, x: Workload, k: nat, n: nat)
    requires n <= |a.rows| && n <= |b.rows|
    requires forall i :: 0 <= i < n && i != k ==> (Counts(a, device, x, i) <==> Counts(b, device, x, i))
    ensures HeldOf(a, device, x, k, n) == HeldOf(b, device, x, k, n)
  {
    if n > 0 {
      SameOthers(a, b, device, x, k, n - 1);
    }
  }

  /** The caller holds its row after the request, not newly granted, exactly when it did after the sweep. */
  lemma CallerHeldAsSwept(t: Table, op: Operation)
    requires Inv(t) && op.Ask? && FreshId(t, op) && Requested(t.rows, op.request, op.world).Ok?
    ensures var u, s := Apply(t, op), SweptTable(t, op.request.device, op.world);
            var (entered, k) := Enter(t.rows, op.request, op.world).value;
            var newly := entered[k].status == Waiting && Admits(entered, k, op.request, op.world);
            && k < |u.rows|
            && (HeldAt(u, k) && !newly <==> k < |s.rows| && HeldAt(s, k))
            && (newly ==> HeldAt(u, k))
  {
    var q, w, u := op.request, op.world, Apply(t, op);
    AskAnswers(t, op);
    RequestShape(t.rows, q, w);
    EnterShape(t.rows, q, w);
    var (entered, k) := Enter(t.rows, q, w).value;
    if k < |t.rows| {
      SweptHeld(t, q.device, w, k);
      var (_, granted) := Requested(t.rows, q, w).value;
      StillHeldAt(u.rows, if granted.Some? then t.held + {granted.value} else t.held, k);
      assert SameLease(t.rows[k], u.rows[k]);
    }
  }

  /** What the request leaves held of its workload: the others after the sweep, and perhaps the caller. */
  lemma HeldAfterAsk(t: Table, op: Operation)
    requires Inv(t) && op.Ask? && FreshId(t, op) && op.request.mode == Shared
    requires Requested(t.rows, op.request, op.world).Ok?
    ensures var u, s, q := Apply(t, op), SweptTable(t, op.request.device, op.world), op.request;
            var k := Enter(t.rows, q, op.world).value.1;
            && k < |u.rows|
            && Held(u, q.device, q.workload) == Others(u, k, q.device, q.workload) + (if HeldAt(u, k) then 1 else 0)
            && (k < |t.rows| ==> Others(u, k, q.device, q.workload) == Others(s, k, q.device, q.workload))
  {
    var u, q := Apply(t, op), op.request;
    var k := Enter(t.rows, q, op.world).value.1;
    AskAnswers(t, op);
    CallerCounts(t.rows, q, op.world);
    OneMore(u, q.device, q.workload, k, |u.rows|);
    if k < |t.rows| {
      forall i | 0 <= i < |t.rows| && i != k
        ensures Counts(u, q.device, q.workload, i) <==>
                Counts(SweptTable(t, q.device, op.world), q.device, q.workload, i)
      {
        OthersAsSwept(t, op, q.device, q.workload, i);
      }
      SameOthers(u, SweptTable(t, q.device, op.world), q.device, q.workload, k, |t.rows|);
    }
  }

  /** Where the caller had a row, the sweep leaves its owner, device and mode as the request names them. */
  lemma CallerRow(t: Table, q: Request, w: World)
    requires Enter(t.rows, q, w).Ok?
    ensures var s, k := SweptTable(t, q.device, w), Enter(t.rows, q, w).value.1;
            k < |s.rows| ==> s.rows[k].owner == q.owner && s.rows[k].device == q.device && s.rows[k].mode == q.mode
  {
    EnterShape(t.rows, q, w);
    var k := Enter(t.rows, q, w).value.1;
    if k < |t.rows| {
      assert SweptTable(t, q.device, w).rows[k] == Swept(t.rows[k], q.device, w);
    }
  }

  lemma SweptKeepsOwner(t: Table, q: Request, w: World, i: nat)
    requires i < |t.rows|
    ensures SweptTable(t, q.device, w).rows[i].owner == t.rows[i].owner
  {
    assert SweptTable(t, q.device, w).rows[i] == Swept(t.rows[i], q.device, w);
  }

  lemma SharedIsPositive(rows: seq<Row>, q: Request, w: World)
    requires Enter(rows, q, w).Ok? && q.mode == Shared
    ensures q.budget > 0 && q.reserve > 0
  {
  }

  lemma OverfillsAtCaller(t: Table, op: Operation, limit: nat)
    requires Inv(t) && op.Ask? && op.request.mode == Shared && Enter(t.rows, op.request, op.world).Ok?
    ensures var s, q := SweptTable(t, op.request.device, op.world), op.request;
            var k := Enter(t.rows, q, op.world).value.1;
            Overfills(t, q, op.world, limit) <==>
              k < |s.rows| && HeldAt(s, k) && Others(s, k, q.device, q.workload) >= limit
  {
    hide Enter, HeldOf;
    var q := op.request;
    var s, k := SweptTable(t, q.device, op.world), Enter(t.rows, q, op.world).value.1;
    CallerRow(t, q, op.world);
    SharedIsPositive(t.rows, q, op.world);
    if k < |s.rows| {
      assert Moves(s, k, q, limit) <==> HeldAt(s, k) && Others(s, k, q.device, q.workload) >= limit;
    }
    if Overfills(t, q, op.world, limit) {
      var j :| 0 <= j < |s.rows| && Moves(s, j, q, limit);
      SweptKeepsOwner(t, q, op.world, j);
      CallerIs(t.rows, q, op.world, j);
    }
  }

  /**
    A request keeps its workload within a limit that covers its own exactly when
    it does not ask for a lease its owner still holds, for work that is full
    without it.
   */
  lemma CapKeptIff(t: Table, op: Operation, limit: nat)
    requires Inv(t) && op.Ask? && FreshId(t, op) && op.request.mode == Shared
    requires Requested(t.rows, op.request, op.world).Ok? && Limit(op.request) <= limit
    requires Held(t, op.request.device, op.request.workload) <= limit
    ensures var q := op.request;
            Held(Apply(t, op), q.device, q.workload) <= limit <==> !Overfills(t, q, op.world, limit)
  {
    var q := op.request;
    var (entered, k) := Enter(t.rows, q, op.world).value;
    HeldAfterAsk(t, op);
    CallerHeldAsSwept(t, op);
    OverfillsAtCaller(t, op, limit);
    OthersNotMore(t, op, q.device, q.workload);
    if entered[k].status == Waiting && Admits(entered, k, q, op.world) {
      NewGrantWithinLimit(t, op);
    }
  }

  /** For the limit the request itself names. */
  lemma LimitKeptIff(t: Table, op: Operation)
    requires Inv(t) && op.Ask? && FreshId(t, op) && op.request.mode == Shared
    requires Requested(t.rows, op.request, op.world).Ok?
    requires Held(t, op.request.device, op.request.workload) <= Limit(op.request)
    ensures var q := op.request;
            Held(Apply(t, op), q.device, q.workload) <= Limit(q) <==> !Overfills(t, q, op.world, Limit(q))
  {
    CapKeptIff(t, op, Limit(op.request));
  }

  lemma CallerCounts(rows: seq<Row>, q: Request, w: World)
    requires Requested(rows, q, w).Ok? && q.mode == Shared
    ensures var (after, _) := Requested(rows, q, w).value;
            var k := Enter(rows, q, w).value.1;
            && k < |after| && after[k].device == q.device && after[k].mode == Shared && after[k].workload == Some(q.workload)
  {
    GrantedWorkload(rows, q, w);
    RequestShape(rows, q, w);
    EnterShape(rows, q, w);
    var (entered, k) := Enter(rows, q, w).value;
    var (after, _) := Requested(rows, q, w).value;
    assert SameLease(entered[k], after[k]);
  }

  // ------------------------------------------------------ over whole histories

  function Cap(x: Workload, extracts: nat): nat {
    match x
    case Extract => extracts
    case Predict => 2
    case Compression => 1
  }

  /** Nobody asks for more extractions at a time than `extracts`. */
  predicate Modest(ops: seq<Operation>, extracts: nat) {
    forall n :: 0 <= n < |ops| && ops[n].Ask? ==> ops[n].request.capacity <= extracts
  }

  /** The device is within its capacity for every workload. */
  ghost predicate WithinCap(t: Table, extracts: nat) {
    forall device, x :: Held(t, device, x) <= Cap(x, extracts)
  }

  predicate OverfillsNext(t: Table, op: Operation, extracts: nat) {
    op.Ask? && Overfills(t, op.request, op.world, Cap(op.request.workload, extracts))
  }

  /** Some request of the history asks for a held lease, for work that is full without it. */
  predicate OverfillsSomewhere(ops: seq<Operation>, extracts: nat) {
    exists n :: 0 <= n < |ops| && OverfillsNext(Replay(ops[..n]), ops[n], extracts)
  }

  ghost predicate AlwaysWithinCap(ops: seq<Operation>, extracts: nat) {
    forall n :: 0 <= n <= |ops| ==> WithinCap(Replay(ops[..n]), extracts)
  }

  /** What is held of any other workload, or on any other device, does not grow. */
  lemma ElsewhereNotMore(t: Table, op: Operation, device: nat, x: Workload)
    requires Inv(t) && op.Ask? && FreshId(t, op) && Requested(t.rows, op.request, op.world).Ok?
    requires op.request.mode != Shared || device != op.request.device || x != op.request.workload
    ensures Held(Apply(t, op), device, x) <= Held(t, device, x)
  {
    var u := Apply(t, op);
    var k := Enter(t.rows, op.request, op.world).value.1;
    CallerKind(t.rows, op.request, op.world);
    OneMore(u, device, x, k, |u.rows|);
    OthersNotMore(t, op, device, x);
  }

  lemma CallerKind(rows: seq<Row>, q: Request, w: World)
    requires Requested(rows, q, w).Ok?
    ensures var (after, _) := Requested(rows, q, w).value;
            var k := Enter(rows, q, w).value.1;
            && k < |after| && after[k].device == q.device && after[k].mode == q.mode && after[k].owner == q.owner
            && (q.mode == Shared ==> after[k].workload == Some(q.workload))
  {
    RequestShape(rows, q, w);
    EnterShape(rows, q, w);
    var (entered, k) := Enter(rows, q, w).value;
    var (after, _) := Requested(rows, q, w).value;
    assert SameLease(entered[k], after[k]);
    if q.mode == Shared {
      CallerCounts(rows, q, w);
    }
  }

  /** One operation within capacity leads beyond it exactly when it is such a request. */
  lemma StepWithinCapIff(t: Table, op: Operation, extracts: nat)
    requires Inv(t) && FreshId(t, op) && WithinCap(t, extracts)
    requires op.Ask? ==> op.request.capacity <= extracts
    ensures WithinCap(Apply(t, op), extracts) <==> !OverfillsNext(t, op, extracts)
  {
    if op.Ask? {
      AskWithinCapIff(t, op, extracts);
    } else {
      forall device, x ensures Held(Apply(t, op), device, x) <= Cap(x, extracts) {
        OtherNotMore(t, op, device, x);
      }
    }
  }

  lemma AskWithinCapIff(t: Table, op: Operation, extracts: nat)
    requires Inv(t) && op.Ask? && FreshId(t, op) && WithinCap(t, extracts) && op.request.capacity <= extracts
    ensures WithinCap(Apply(t, op), extracts) <==> !OverfillsNext(t, op, extracts)
  {
    var q, w := op.request, op.world;
    var cap := Cap(q.workload, extracts);
    assert Held(t, q.device, q.workload) <= cap;
    if Requested(t.rows, q, w).Ok? {
      if q.mode == Shared {
        CapKeptIff(t, op, cap);
      }
      forall device, x | q.mode != Shared || device != q.device || x != q.workload
        ensures Held(Apply(t, op), device, x) <= Cap(x, extracts)
      {
        ElsewhereNotMore(t, op, device, x);
      }
      if !OverfillsNext(t, op, extracts) {
        forall device, x ensures Held(Apply(t, op), device, x) <= Cap(x, extracts) {
        }
      }
    } else if OverfillsNext(t, op, extracts) {
      var s := SweptTable(t, q.device, w);
      var k :| 0 <= k < |s.rows| && Moves(s, k, q, cap);
      OverfillIsAnswered(t, q, w, cap, k);
    }
  }

  lemma OtherNotMore(t: Table, op: Operation, device: nat, x: Workload)
    requires Inv(t) && !op.Ask?
    ensures Held(Apply(t, op), device, x) <= Held(t, device, x)
  {
    var u := Apply(t, op);
    forall i | 0 <= i < |u.rows| && Counts(u, device, x, i) ensures Counts(t, device, x, i) {
      assert u.rows[i] == Changed(t.rows[i], op);
      StillHeldAt(u.rows, t.held, i);
      OtherKeepsInv(t, op);
    }
    Fewer(t, u, device, x, -1, |u.rows|, |t.rows|);
  }

  lemma AlwaysSplits(ops: seq<Operation>, op: Operation, extracts: nat)
    ensures AlwaysWithinCap(ops + [op], extracts) <==>
            AlwaysWithinCap(ops, extracts) && WithinCap(Replay(ops + [op]), extracts)
    ensures OverfillsSomewhere(ops + [op], extracts) <==>
            OverfillsSomewhere(ops, extracts) || OverfillsNext(Replay(ops), op, extracts)
    ensures Modest(ops + [op], extracts) ==>
              Modest(ops, extracts) && (op.Ask? ==> op.request.capacity <= extracts)
  {
    hide Replay, WithinCap, OverfillsNext;
    var all := ops + [op];
    assert all[..|ops|] == ops && all[|ops|] == op && all[..|all|] == all;
    forall n | 0 <= n <= |ops| ensures all[..n] == ops[..n] {
    }
    forall n | 0 <= n < |ops| ensures all[n] == ops[n] {
    }
  }

  /**
    Over a whole history held leases stay within one compression, two
    predictions and the extract capacity on every device exactly when no request
    asks for a lease its owner still holds, for work that is full without it.
   */
  lemma {:induction false} CapacityHoldsIff(ops: seq<Operation>, extracts: nat)
    requires History(ops) && Modest(ops, extracts)
    ensures AlwaysWithinCap(ops, extracts) <==> !OverfillsSomewhere(ops, extracts)
  {
    hide Apply, OverfillsNext, History, Modest;
    if ops == [] {
      forall device, x ensures Held(Replay(ops), device, x) == 0 {
      }
      assert ops[..0] == [];
    } else {
      var before, op := ops[..|ops| - 1], ops[|ops| - 1];
      assert ops == before + [op];
      HistorySplits(before, op);
      AlwaysSplits(before, op, extracts);
      HistoryKeepsInv(before);
      CapacityHoldsIff(before, extracts);
      if AlwaysWithinCap(before, extracts) {
        assert before[..|before|] == before;
        StepWithinCapIff(Replay(before), op, extracts);
      }
    }
  }

  /** So such histories never exceed the capacity. */
  lemma CapacityHolds(ops: seq<Operation>, extracts: nat, device: nat, x: Workload)
    requires History(ops) && Modest(ops, extracts) && !OverfillsSomewhere(ops, extracts)
    ensures Held(Replay(ops), device, x) <= Cap(x, extracts)
  {
    CapacityHoldsIff(ops, extracts);
    assert ops[..|ops|] == ops;
    assert WithinCap(Replay(ops[..|ops|]), extracts);
  }

  // --------------------------------------------------- owners that are constant

  /** An owner always asks for the same kind of work. */
  predicate SteadyAt(op: Operation, kind: nat -> Workload) {
    op.Ask? && op.request.mode == Shared ==> op.request.workload == kind(op.request.owner)
  }

  predicate Steady(ops: seq<Operation>, kind: nat -> Workload) {
    forall n :: 0 <= n < |ops| ==> SteadyAt(ops[n], kind)
  }

  predicate Kinds(rows: seq<Row>, kind: nat -> Workload) {
    forall i :: 0 <= i < |rows| && rows[i].mode == Shared ==> rows[i].workload == Some(kind(rows[i].owner))
  }

  lemma KindsKept(t: Table, op: Operation, kind: nat -> Workload)
    requires Inv(t) && FreshId(t, op) && Kinds(t.rows, kind) && SteadyAt(op, kind)
    ensures Kinds(Apply(t, op).rows, kind)
  {
    var u := Apply(t, op);
    if !op.Ask? {
      forall i | 0 <= i < |u.rows| ensures u.rows[i].workload == t.rows[i].workload && SameLease(u.rows[i], t.rows[i]) {
        assert u.rows[i] == Changed(t.rows[i], op);
      }
    } else if Requested(t.rows, op.request, op.world).Ok? {
      AskAnswers(t, op);
      RequestShape(t.rows, op.request, op.world);
      EnterShape(t.rows, op.request, op.world);
      var k := Enter(t.rows, op.request, op.world).value.1;
      forall i | 0 <= i < |u.rows| && u.rows[i].mode == Shared
        ensures u.rows[i].workload == Some(kind(u.rows[i].owner))
      {
        if i == k {
          CallerKind(t.rows, op.request, op.world);
        } else {
          assert SameLease(t.rows[i], u.rows[i]);
          OthersKeepWorkload(t.rows, op.request, op.world, i);
        }
      }
    }
  }

  /** A lease that is held for a kind of work is among those held of it. */
  lemma SteadyLeavesRoom(t: Table, q: Request, w: World, kind: nat -> Workload, cap: nat, k: nat)
    requires Inv(t) && Kinds(t.rows, kind) && q.workload == kind(q.owner)
    requires Held(t, q.device, q.workload) <= cap
    requires var s := SweptTable(t, q.device, w);
             && k < |s.rows| && HeldAt(s, k)
             && s.rows[k].owner == q.owner && s.rows[k].device == q.device && s.rows[k].mode == Shared
    ensures Others(SweptTable(t, q.device, w), k, q.device, q.workload) < cap
  {
    var s := SweptTable(t, q.device, w);
    forall i | 0 <= i < |s.rows| && Counts(s, q.device, q.workload, i) ensures Counts(t, q.device, q.workload, i) {
      SweptHeld(t, q.device, w, i);
    }
    Fewer(t, s, q.device, q.workload, -1, |s.rows|, |t.rows|);
    OneMore(s, q.device, q.workload, k, |s.rows|);
    SweptHeld(t, q.device, w, k);
    assert Counts(s, q.device, q.workload, k);
  }

  /** Asking again for the same kind of work never asks for what is full without it. */
  lemma SteadyNeverOverfills(t: Table, op: Operation, kind: nat -> Workload, extracts: nat)
    requires Inv(t) && WithinCap(t, extracts) && Kinds(t.rows, kind) && SteadyAt(op, kind)
    ensures !OverfillsNext(t, op, extracts)
  {
    if OverfillsNext(t, op, extracts) {
      var q := op.request;
      var s, cap := SweptTable(t, q.device, op.world), Cap(q.workload, extracts);
      var k :| 0 <= k < |s.rows| && Moves(s, k, q, cap);
      SteadyLeavesRoom(t, q, op.world, kind, cap, k);
    }
  }

  /** Where no owner changes its kind of work, the capacity always holds. */
  lemma {:induction false} SteadyOwnersStayWithin(ops: seq<Operation>, kind: nat -> Workload, extracts: nat)
    requires History(ops) && Modest(ops, extracts) && Steady(ops, kind)
    ensures Kinds(Replay(ops).rows, kind) && WithinCap(Replay(ops), extracts)
  {
    if ops == [] {
      forall device, x ensures Held(Replay(ops), device, x) == 0 {
      }
    } else {
      var before, op := ops[..|ops| - 1], ops[|ops| - 1];
      assert ops == before + [op] && SteadyAt(ops[|ops| - 1], kind);
      forall n | 0 <= n < |before| ensures SteadyAt(before[n], kind) {
        assert SteadyAt(ops[n], kind);
      }
      HistorySplits(before, op);
      AlwaysSplits(before, op, extracts);
      HistoryKeepsInv(before);
      SteadyOwnersStayWithin(before, kind, extracts);
      SteadyStep(Replay(before), op, kind, extracts);
    }
  }

  lemma SteadyStep(t: Table, op: Operation, kind: nat -> Workload, extracts: nat)
    requires Inv(t) && FreshId(t, op) && Kinds(t.rows, kind) && SteadyAt(op, kind) && WithinCap(t, extracts)
    requires op.Ask? ==> op.request.capacity <= extracts
    ensures Kinds(Apply(t, op).rows, kind) && WithinCap(Apply(t, op), extracts)
  {
    KindsKept(t, op, kind);
    SteadyNeverOverfills(t, op, kind, extracts);
    StepWithinCapIff(t, op, extracts);
  }

  // ------------------------------------------- an owner that changes its mind

  function Calm(): World { World(0, _ => Alive(7), None) }

  function FirstAsk(): Request { Request(0, Shared, 1, 6, false, 1, 1, Extract, 0, 10, 5, 7) }

  function SecondAsk(): Request { FirstAsk().(owner := 2, workload := Compression, newId := 11) }

  function ThirdAsk(): Request { FirstAsk().(workload := Compression, newId := 12) }

  function LeaseOf(q: Request): Row
    requires q.budget > 0
  {
    Budgeted(NewRow(q, 0), q).(status := Active)
  }

  lemma NewOwnerIsGranted(rows: seq<Row>, q: Request)
    requires q.mode == Shared && !q.checkMemory && q.budget > 0 && q.reserve > 0 && q.identity == 7
    requires |rows| <= 1
    requires forall i :: 0 <= i < |rows| ==>
               rows[i].status == Active && rows[i].mode == Shared && rows[i].owner != q.owner && rows[i].identity == 7
               && WorkloadOf(rows[i]) != q.workload && rows[i].device == q.device
    requires Limit(q) >= 1
    ensures Requested(rows, q, Calm()) == Ok((rows + [LeaseOf(q)], Some(q.newId)))
  {
    var w, k := Calm(), |rows|;
    var swept := Sweep(rows, q.device, w);
    assert swept == rows;
    assert !Owned(swept, q.owner);
    var entered := rows + [Budgeted(NewRow(q, 0), q)];
    assert (rows + [NewRow(q, 0)])[k := Budgeted(NewRow(q, 0), q)] == entered;
    assert Enter(rows, q, w) == Ok((entered, k));
    assert SameType(entered, k, |entered|, q.workload) == 0 by {
      assert forall i :: 0 <= i < |rows| ==> entered[i] == rows[i];
      if |rows| == 1 {
        assert SameType(entered, k, 1, q.workload) == 0;
      }
    }
    assert !Measures(entered, k, q, w) && Admits(entered, k, q, w);
    assert entered[k := LeaseOf(q)] == rows + [LeaseOf(q)];
  }

  lemma FirstApplied(a: Row)
    requires a == LeaseOf(FirstAsk())
    ensures Apply(Table([], {}), Ask(FirstAsk(), Calm())) == Table([a], {10})
  {
    NewOwnerIsGranted([], FirstAsk());
    assert [] + [a] == [a];
    assert StillHeld([a], {10}) == {10} by { assert [a][0].id == 10; }
  }

  lemma SecondApplied(a: Row, b: Row)
    requires a == LeaseOf(FirstAsk()) && b == LeaseOf(SecondAsk())
    ensures Apply(Table([a], {10}), Ask(SecondAsk(), Calm())) == Table([a, b], {10, 11})
  {
    NewOwnerIsGranted([a], SecondAsk());
    assert [a] + [b] == [a, b];
    assert {10} + {11} == {10, 11};
    assert StillHeld([a, b], {10, 11}) == {10, 11} by { assert [a, b][0].id == 10 && [a, b][1].id == 11; }
  }

  lemma SwitchIsGranted(a: Row, b: Row)
    requires a == LeaseOf(FirstAsk()) && b == LeaseOf(SecondAsk())
    ensures Requested([a, b], ThirdAsk(), Calm()) == Ok(([Budgeted(a, ThirdAsk()), b], Some(10)))
  {
    var c := Budgeted(a, ThirdAsk());
    var swept := Sweep([a, b], 0, Calm());
    assert swept == [a, b];
    assert swept[0].owner == 1;
    assert Owned(swept, 1) && Find(swept, 1) == 0;
    assert [a, b][0 := a] == [a, b] && [a, b][0 := c] == [c, b];
    assert Enter([a, b], ThirdAsk(), Calm()) == Ok(([c, b], 0));
    assert [c, b][0 := c] == [c, b];
  }

  function Switching(): seq<Operation> {
    [Ask(FirstAsk(), Calm()), Ask(SecondAsk(), Calm()), Ask(ThirdAsk(), Calm())]
  }

  lemma SwitchingIsFresh(t1: Table, t2: Table, a: Row, b: Row)
    requires a == LeaseOf(FirstAsk()) && b == LeaseOf(SecondAsk()) && t1.rows == [a] && t2.rows == [a, b]
    ensures FreshId(t1, Ask(SecondAsk(), Calm())) && FreshId(t2, Ask(ThirdAsk(), Calm()))
  {
  }

  lemma SwitchingIsHistory(a: Row, b: Row, c: Row)
    requires a == LeaseOf(FirstAsk()) && b == LeaseOf(SecondAsk()) && c == Budgeted(a, ThirdAsk())
    ensures History(Switching()) && Replay(Switching()) == Table([c, b], {10, 11})
  {
    FirstApplied(a);
    SecondApplied(a, b);
    SwitchApplied(a, b, c);
    var t1, t2 := Table([a], {10}), Table([a, b], {10, 11});
    SwitchingIsFresh(t1, t2, a, b);
    HistoryOfThree(Ask(FirstAsk(), Calm()), Ask(SecondAsk(), Calm()), Ask(ThirdAsk(), Calm()),
                   t1, t2, Table([c, b], {10, 11}));
  }

  /** The owner of a running extraction asks for compression while another one compresses: both then hold it. */
  lemma ChangedMindExceedsLimit()
    ensures History(Switching()) && Held(Replay(Switching()), 0, Compression) == 2 > Cap(Compression, 6)
  {
    var a, b := LeaseOf(FirstAsk()), LeaseOf(SecondAsk());
    SwitchingIsHistory(a, b, Budgeted(a, ThirdAsk()));
    TwoEncoders(a, b, Budgeted(a, ThirdAsk()));
  }

  lemma TwoEncoders(a: Row, b: Row, c: Row)
    requires a == LeaseOf(FirstAsk()) && b == LeaseOf(SecondAsk()) && c == Budgeted(a, ThirdAsk())
    ensures Held(Table([c, b], {10, 11}), 0, Compression) == 2
  {
    assert HeldOf(Table([c, b], {10, 11}), 0, Compression, -1, 1) == 1;
  }

  lemma SwitchApplied(a: Row, b: Row, c: Row)
    requires a == LeaseOf(FirstAsk()) && b == LeaseOf(SecondAsk()) && c == Budgeted(a, ThirdAsk())
    ensures Apply(Table([a, b], {10, 11}), Ask(ThirdAsk(), Calm())) == Table([c, b], {10, 11})
  {
    SwitchIsGranted(a, b);
    assert {10, 11} + {10} == {10, 11};
    assert StillHeld([c, b], {10, 11}) == {10, 11} by { assert [c, b][0].id == 10 && [c, b][1].id == 11; }
  }

  lemma HistoryOfThree(one: Operation, two: Operation, three: Operation, t1: Table, t2: Table, t3: Table)
    requires Apply(Table([], {}), one) == t1 && Apply(t1, two) == t2 && Apply(t2, three) == t3
    requires FreshId(Table([], {}), one) && FreshId(t1, two) && FreshId(t2, three)
    ensures History([one, two, three]) && Replay([one, two, three]) == t3
  {
    var ops := [one, two, three];
    assert ops[..0] == [] && ops[..1] == [one] && ops[..2] == [one, two];
    assert Replay([]) == Table([], {});
    assert Replay([one]) == t1 by { assert [one][..0] == []; }
    assert Replay([one, two]) == t2 by { assert [one, two][..1] == [one]; }
  }
}
